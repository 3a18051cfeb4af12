/**
 * The unicast send pipeline of one node: the queue that holds messages waiting
 * for a route or a session, the pending-ACK table, and the message store they
 * report to (main/mesh_task.c, main/mesh_dm.c, main/rerr_ack_fastfail.c,
 * components/reliability/reliability.c).
 *
 * Every handler is one atomic step on `State`. What the handler learns from
 * code outside the pipeline (is a route usable, is the session active, did the
 * radio take the frame, the clock) arrives in an `Env`. Packet ids and uids are
 * drawn from counters that have not wrapped.
 */
module Pipeline {
  import opened Basics
  import opened Bits
  import opened MsgStore

  const SLOTS: nat := 8
  const MAX_DM: nat := 154
  const ROUTE_TTL_MS: nat := 60_000
  const SESSION_TTL_MS: nat := 150_000
  const DM_TRIES: nat := 3
  const DM_DELAY_MS: nat := 2000
  const KE_TRIES: nat := 8
  const KE_DELAY_MS: nat := 3000
  const BROADCAST: nat := 0xFFFF_FFFF

  datatype Reason = Route | Session

  /** queued_msg_t. */
  datatype Entry = Entry(used: bool, reason: Reason, dest: nat, data: seq<char>, stamp: nat, pkt: nat, uid: nat)

  /** pending_ack_t. `uid` is the message the frame carries, 0 for a handshake
      or any other frame no row waits for. */
  datatype Ack = Ack(active: bool, pkt: nat, dest: nat, uid: nat, attempt: nat, limit: nat, retryAt: nat)

  /** What the pipeline has done, in order. */
  datatype Event =
    | Enqueued(uid: nat)
    | Transmitted(uid: nat, pkt: nat, dest: nat, data: seq<char>)
    | OtherSent(pkt: nat, dest: nat)
    | Retransmitted(pkt: nat)
    | FailReported(uid: nat)

  datatype Message = Message(dest: nat, data: seq<char>)

  /** `book` records what the user submitted under each uid. */
  datatype State = State(
    queue: seq<Entry>, acks: seq<Ack>, store: seq<Row>, cap: nat,
    nextPkt: nat, nextUid: nat, log: seq<Event>, book: map<nat, Message>)

  /** What mesh_send_dm finds: a session, a handshake to wait for, or the handshake cap. */
  datatype SessionState = Active | Handshaking | Capped

  datatype Env = Env(channels: bool, reachable: bool, session: SessionState, txOk: bool, initTx: bool, now: nat, nowS: nat)

  function At(envs: seq<Env>, i: nat): Env {
    if i < |envs| then envs[i] else Env(false, false, Capped, false, false, 0, 0)
  }

  // ------------------------------------------------------------ the queue

  predicate Holds(q: seq<Entry>, uid: nat) { exists i :: 0 <= i < |q| && q[i].used && q[i].uid == uid }

  /** First used entry with the uid at or after `i`, or |q|. */
  function IndexOfUid(q: seq<Entry>, uid: nat, i: nat): (r: nat)
    requires i <= |q|
    ensures i <= r <= |q|
    ensures r < |q| ==> q[r].used && q[r].uid == uid
    ensures forall k :: i <= k < r ==> !(q[k].used && q[k].uid == uid)
    decreases |q| - i
  {
    if i == |q| || (q[i].used && q[i].uid == uid) then i else IndexOfUid(q, uid, i + 1)
  }

  function FirstFree(q: seq<Entry>, i: nat): (r: nat)
    requires i <= |q|
    ensures i <= r <= |q|
    ensures r < |q| ==> !q[r].used
    ensures forall k :: i <= k < r ==> q[k].used
    decreases |q| - i
  {
    if i == |q| || !q[i].used then i else FirstFree(q, i + 1)
  }

  /** Oldest awaiting-session entry among the first n, or |q|. */
  function OldestSession(q: seq<Entry>, n: nat): (r: nat)
    requires n <= |q|
    ensures r <= |q|
    ensures r < |q| ==> q[r].used && q[r].reason == Session
    ensures r == |q| ==> forall k :: 0 <= k < n ==> !(q[k].used && q[k].reason == Session)
    ensures r < |q| ==> forall k :: 0 <= k < n && q[k].used && q[k].reason == Session ==> q[r].stamp <= q[k].stamp
  {
    if n == 0 then |q|
    else
      var best := OldestSession(q, n - 1);
      var e := q[n - 1];
      if e.used && e.reason == Session && (best == |q| || e.stamp < q[best].stamp) then n - 1 else best
  }

  // ------------------------------------------- the moves handlers are made of

  /** msg_store_update_by_uid(uid, 0, FAILED): a failure reported to the message's row. */
  function FailReport(s: State, uid: nat): State {
    if uid == 0 then s
    else s.(store := UpdateByUid(s.store, uid, 0, Failed).0, log := s.log + [FailReported(uid)])
  }

  function Enqueue(s: State, i: nat, e: Entry): State
    requires i < |s.queue|
  {
    s.(queue := s.queue[i := e], log := s.log + [Enqueued(e.uid)])
  }

  /** `used = false`. */
  function Release(s: State, i: nat): State
    requires i < |s.queue|
  {
    s.(queue := s.queue[i := s.queue[i].(used := false)])
  }

  /** The drain takes the uid off the entry it is consuming and keeps the slot used. */
  function Blank(s: State, i: nat): State
    requires i < |s.queue|
  {
    s.(queue := s.queue[i := s.queue[i].(uid := 0)])
  }

  function FreeAck(acks: seq<Ack>, i: nat): (r: nat)
    requires i <= |acks|
    ensures i <= r <= |acks|
    ensures r < |acks| ==> !acks[r].active
    ensures forall k :: i <= k < r ==> acks[k].active
    decreases |acks| - i
  {
    if i == |acks| || !acks[i].active then i else FreeAck(acks, i + 1)
  }

  /** pending_ack_add: a full table tracks nothing, and the caller does not look. */
  function AckAdd(acks: seq<Ack>, pkt: nat, dest: nat, uid: nat, limit: nat, retryAt: nat): (r: seq<Ack>)
    ensures |r| == |acks|
  {
    var i := FreeAck(acks, 0);
    if i == |acks| then acks else acks[i := Ack(true, pkt, dest, uid, 0, limit, retryAt)]
  }

  /** pending_ack_is_active. */
  predicate Outstanding(acks: seq<Ack>, pkt: nat) {
    pkt != 0 && exists i :: 0 <= i < |acks| && acks[i].active && acks[i].pkt == pkt
  }

  /** A DM frame goes on the air under a new packet id and starts waiting for its ACK. */
  function Transmit(s: State, uid: nat, dest: nat, data: seq<char>, now: nat): State {
    s.(nextPkt := s.nextPkt + 1,
       acks := AckAdd(s.acks, s.nextPkt, dest, uid, DM_TRIES, (now + DM_DELAY_MS) % WRAP),
       log := s.log + [Transmitted(uid, s.nextPkt, dest, data)])
  }

  /** A unicast frame no row waits for: handshake, roll-call answer. */
  function TransmitOther(s: State, dest: nat, limit: nat, retryAt: nat): State {
    s.(nextPkt := s.nextPkt + 1, acks := AckAdd(s.acks, s.nextPkt, dest, 0, limit, retryAt),
       log := s.log + [OtherSent(s.nextPkt, dest)])
  }

  /** A broadcast DATA frame: nobody's ACK is waited for. */
  function Flood(s: State): State {
    s.(nextPkt := s.nextPkt + 1, log := s.log + [OtherSent(s.nextPkt, BROADCAST)])
  }

  function AddRow(s: State, row: Row): State
    requires 0 < s.cap && |s.store| <= s.cap
  {
    s.(store := Add(s.store, s.cap, row))
  }

  /** The row of a frame just transmitted as `pkt`: stamp it, or store it again if the ring dropped it. */
  function StampSent(s: State, uid: nat, pkt: nat, dest: nat, data: seq<char>, nowS: nat): State
    requires 0 < s.cap && |s.store| <= s.cap
  {
    var u := UpdateByUid(s.store, uid, pkt, Sent);
    if u.1 then s.(store := u.0)
    else AddRow(s, Row(dest, uid, true, true, Sent, pkt, nowS, Clip(data)))
  }

  /** msg_store_next_uid for a message whose row does not exist yet. */
  function Register(s: State, dest: nat, data: seq<char>): State {
    s.(nextUid := s.nextUid + 1, book := s.book[s.nextUid := Message(dest, data)])
  }

  predicate Shape(s: State) {
    |s.queue| == SLOTS && |s.acks| == SLOTS && 0 < s.cap && |s.store| <= s.cap && 0 < s.nextPkt && 0 < s.nextUid
  }

  // ------------------------------------------------------------ the handlers

  /** queue_message. */
  function QueueMessage(s: State, dest: nat, data: seq<char>, uid: nat, now: nat): (r: (State, bool))
    requires Shape(s)
    ensures Shape(r.0)
  {
    if uid != 0 && IndexOfUid(s.queue, uid, 0) < SLOTS then (s, true)
    else
      var free := FirstFree(s.queue, 0);
      if free == SLOTS then (s, false)
      else (Enqueue(s, free, Entry(true, Route, dest, data, now, 0, uid)), true)
  }

  /** Make room for a DM awaiting a session: a free slot, or the oldest such entry, failed visibly. */
  function MakeRoom(s: State): (r: (State, nat))
    requires Shape(s)
    ensures Shape(r.0) && r.1 <= SLOTS && (r.1 < SLOTS ==> !r.0.queue[r.1].used)
  {
    var free := FirstFree(s.queue, 0);
    if free < SLOTS then (s, free)
    else
      var oldest := OldestSession(s.queue, SLOTS);
      if oldest == SLOTS then (s, SLOTS)
      else (Release(FailReport(s, s.queue[oldest].uid), oldest), oldest)
  }

  /** queue_session_message: the tracking id, 0 on failure. */
  function QueueSession(s: State, dest: nat, data: seq<char>, uid: nat, now: nat): (r: (State, nat))
    requires Shape(s)
    ensures Shape(r.0)
  {
    var at := IndexOfUid(s.queue, uid, 0);
    if uid != 0 && at < SLOTS then (s, s.queue[at].pkt)
    else
      var room := MakeRoom(s);
      if room.1 == SLOTS then (s, 0)
      else
        var s1 := room.0;
        (Enqueue(s1.(nextPkt := s1.nextPkt + 1), room.1, Entry(true, Session, dest, data, now, s1.nextPkt, uid)), s1.nextPkt)
  }

  /** mesh_send_dm, session active. */
  function SendActive(s: State, dest: nat, data: seq<char>, uid: nat, env: Env): (r: (State, nat))
    requires Shape(s)
    ensures Shape(r.0)
  {
    if !env.txOk then (FailReport(s.(nextPkt := s.nextPkt + 1), uid), 0)
    else
      var u := if uid != 0 then uid else s.nextUid;
      var s1 := if uid != 0 then s else Register(s, dest, data);
      (StampSent(Transmit(s1, u, dest, data, env.now), u, s.nextPkt, dest, data, env.nowS), s.nextPkt)
  }

  /** mesh_send_dm, no session yet: queue and, if due, start the handshake. */
  function SendWaiting(s: State, dest: nat, data: seq<char>, uid: nat, env: Env): (r: (State, nat))
    requires Shape(s)
    ensures Shape(r.0)
  {
    var u := if uid != 0 then uid else s.nextUid;
    var s1 := if uid != 0 then s else Register(s, dest, data);
    var q := QueueSession(s1, dest, data, u, env.now);
    if q.1 == 0 then (FailReport(q.0, uid), 0)
    else
      var s2 := if env.initTx then TransmitOther(q.0, dest, KE_TRIES, (env.now + KE_DELAY_MS) % WRAP) else q.0;
      if uid != 0 then (s2, q.1)
      else (AddRow(s2, Row(dest, u, true, true, NoStatus, 0, env.nowS, Clip(data))), q.1)
  }

  /** mesh_send_dm. */
  function SendDm(s: State, dest: nat, data: seq<char>, uid: nat, env: Env): (r: (State, nat))
    requires Shape(s)
    ensures Shape(r.0)
  {
    if |data| > MAX_DM then (FailReport(s, uid), 0)
    else
      match env.session
      case Active => SendActive(s, dest, data, uid, env)
      case Handshaking => SendWaiting(s, dest, data, uid, env)
      case Capped => (FailReport(s, uid), 0)
  }

  /** mesh_send_message_uid with no usable route: queue for discovery. */
  function SendUnrouted(s: State, dest: nat, data: seq<char>, uid: nat, env: Env): (r: (State, nat))
    requires Shape(s)
    ensures Shape(r.0)
  {
    var u := if uid != 0 then uid else s.nextUid;
    var s1 := if uid != 0 then s else Register(s, dest, data);
    var q := QueueMessage(s1, dest, data, u, env.now);
    if !q.1 then (FailReport(q.0, uid), 0)
    else if uid != 0 then (q.0, 1)
    else (AddRow(q.0, Row(dest, u, true, true, NoStatus, 0, env.nowS, Clip(data))), 1)
  }

  /** mesh_send_message_uid; uid 0 is a brand new message. */
  function Send(s: State, dest: nat, data: seq<char>, uid: nat, env: Env): (r: (State, nat))
    requires Shape(s)
    ensures Shape(r.0)
  {
    if !env.channels then (FailReport(s, uid), 0)
    else if !env.reachable then SendUnrouted(s, dest, data, uid, env)
    else SendDm(s, dest, data, uid, env)
  }

  /** One slot of flush_queued_messages, with the send re-entering the pipeline. */
  function DrainSlot(s: State, dest: nat, i: nat, env: Env): (r: State)
    requires Shape(s) && i < SLOTS
    ensures Shape(r)
  {
    var e := s.queue[i];
    if e.used && e.reason == Route && e.dest == dest then
      Release(Send(Blank(s, i), dest, e.data, e.uid, env).0, i)
    else s
  }

  /** flush_queued_messages from slot i on. */
  function Drain(s: State, dest: nat, i: nat, envs: seq<Env>): (r: State)
    requires Shape(s) && i <= SLOTS
    ensures Shape(r)
    decreases SLOTS - i
  {
    if i == SLOTS then s else Drain(DrainSlot(s, dest, i, At(envs, i)), dest, i + 1, envs)
  }

  /** One slot of flush_session_queue. */
  function SessionSlot(s: State, dest: nat, i: nat, env: Env): (r: State)
    requires Shape(s) && i < SLOTS
    ensures Shape(r)
  {
    var e := s.queue[i];
    if e.used && e.reason == Session && e.dest == dest then
      var s1 := if env.session == Active && env.txOk
                then StampSent(Transmit(s, e.uid, dest, e.data, env.now), e.uid, s.nextPkt, dest, e.data, env.nowS)
                else FailReport(if env.session == Active then s.(nextPkt := s.nextPkt + 1) else s, e.uid);
      Release(s1, i)
    else s
  }

  /** flush_session_queue from slot i on. */
  function SessionFlush(s: State, dest: nat, i: nat, envs: seq<Env>): (r: State)
    requires Shape(s) && i <= SLOTS
    ensures Shape(r)
    decreases SLOTS - i
  {
    if i == SLOTS then s else SessionFlush(SessionSlot(s, dest, i, At(envs, i)), dest, i + 1, envs)
  }

  /** Fail and free slot i. */
  function Drop(s: State, i: nat): (r: State)
    requires Shape(s) && i < SLOTS
    ensures Shape(r)
  {
    Release(FailReport(s, s.queue[i].uid), i)
  }

  predicate Overdue(e: Entry, now: nat) {
    e.used && (now - e.stamp) % WRAP > (if e.reason == Session then SESSION_TTL_MS else ROUTE_TTL_MS)
  }

  /** The queue reaper of mesh_periodic_maintenance, from slot i on. */
  function Reap(s: State, now: nat, i: nat): (r: State)
    requires Shape(s) && i <= SLOTS
    ensures Shape(r)
    decreases SLOTS - i
  {
    if i == SLOTS then s
    else Reap(if Overdue(s.queue[i], now) then Drop(s, i) else s, now, i + 1)
  }

  /** Discovery gave up on `dest`: its route-awaiting entries fail. */
  function GiveUp(s: State, dest: nat, i: nat): (r: State)
    requires Shape(s) && i <= SLOTS
    ensures Shape(r)
    decreases SLOTS - i
  {
    if i == SLOTS then s
    else
      var e := s.queue[i];
      GiveUp(if e.used && e.reason == Route && e.dest == dest then Drop(s, i) else s, dest, i + 1)
  }

  function Deactivate(s: State, i: nat): (r: State)
    requires i < |s.acks|
  {
    s.(acks := s.acks[i := s.acks[i].(active := false)])
  }

  /** Failure reported by packet id, and the frame given up on. */
  function GiveUpFrame(s: State, i: nat): (r: State)
    requires Shape(s) && i < SLOTS
    ensures Shape(r)
  {
    Deactivate(s.(store := UpdateByPkt(s.store, s.acks[i].pkt, Failed).0), i)
  }

  /** What the tick learns for one entry: did the radio take the frame, and a random draw. */
  datatype Tick = Tick(txOk: bool, rnd: nat)

  /** The wait after the given try: the tier's delay doubled with each, give or take a quarter. */
  function Backoff(limit: nat, attempt: nat, rnd: nat): (r: nat)
    ensures var d := (if limit == KE_TRIES then KE_DELAY_MS else DM_DELAY_MS) * Pow2(attempt); d - d / 4 <= r <= d + d / 4
  {
    var d := (if limit == KE_TRIES then KE_DELAY_MS else DM_DELAY_MS) * Pow2(attempt);
    d - d / 4 + rnd % (2 * (d / 4) + 1)
  }

  function TickAt(ticks: seq<Tick>, i: nat): Tick { if i < |ticks| then ticks[i] else Tick(false, 0) }

  /** One entry of the ACK retry tick. */
  function TickSlot(s: State, now: nat, i: nat, k: Tick): (r: State)
    requires Shape(s) && i < SLOTS
    ensures Shape(r)
  {
    var a := s.acks[i];
    if !a.active || now < a.retryAt then s
    else if a.attempt >= a.limit then GiveUpFrame(s, i)
    else
      s.(acks := s.acks[i := a.(attempt := a.attempt + 1, retryAt := (now + Backoff(a.limit, a.attempt + 1, k.rnd)) % WRAP)],
         log := if k.txOk then s.log + [Retransmitted(a.pkt)] else s.log)
  }

  /** The ACK retry tick from entry i on. */
  function AckTick(s: State, now: nat, i: nat, ticks: seq<Tick>): (r: State)
    requires Shape(s) && i <= SLOTS
    ensures Shape(r)
    decreases SLOTS - i
  {
    if i == SLOTS then s else AckTick(TickSlot(s, now, i, TickAt(ticks, i)), now, i + 1, ticks)
  }

  /** rerr_ack_failfast_for_dest from entry i on. */
  function FailFast(s: State, dest: nat, i: nat): (r: State)
    requires Shape(s) && i <= SLOTS
    ensures Shape(r)
    decreases SLOTS - i
  {
    if i == SLOTS then s
    else FailFast(if s.acks[i].active && s.acks[i].dest == dest then GiveUpFrame(s, i) else s, dest, i + 1)
  }

  function FindAck(acks: seq<Ack>, pkt: nat, i: nat): (r: nat)
    requires i <= |acks|
    ensures i <= r <= |acks|
    ensures r < |acks| ==> acks[r].active && acks[r].pkt == pkt
    ensures forall k :: i <= k < r ==> !(acks[k].active && acks[k].pkt == pkt)
    decreases |acks| - i
  {
    if i == |acks| || (acks[i].active && acks[i].pkt == pkt) then i else FindAck(acks, pkt, i + 1)
  }

  /** handle_ack for an ACK addressed to this node: the frame is settled and its row delivered. */
  function AckArrives(s: State, pkt: nat): (r: State)
    requires Shape(s)
    ensures Shape(r)
  {
    var i := FindAck(s.acks, pkt, 0);
    var s1 := if i < SLOTS then Deactivate(s, i) else s;
    s1.(store := UpdateByPkt(s1.store, pkt, Delivered).0)
  }

  /** mesh_park_message. */
  function Park(s: State, uid: nat, nowS: nat): (r: State)
    requires Shape(s)
    ensures Shape(r)
  {
    if WindowOpen(s.store, uid, nowS) then s.(store := UpdateByUid(s.store, uid, 0, Queued).0) else s
  }

  /** One row of mesh_flush_parked_for. */
  function FlushRow(s: State, uid: nat, env: Env): (r: State)
    requires Shape(s)
    ensures Shape(r)
  {
    var i := FindUid(s.store, uid);
    if i < 0 || Outstanding(s.acks, s.store[i].pkt) then s
    else Send(s, s.store[i].peer, s.store[i].text, uid, env).0
  }

  function FlushRows(s: State, uids: seq<nat>, envs: seq<Env>): (r: State)
    requires Shape(s)
    ensures Shape(r)
    decreases |uids|
  {
    if uids == [] then s
    else FlushRows(FlushRow(s, uids[0], At(envs, 0)), uids[1..], if envs == [] then [] else envs[1..])
  }

  /** mesh_flush_parked_for. */
  function FlushParked(s: State, peer: nat, nowS: nat, envs: seq<Env>): (r: State)
    requires Shape(s)
    ensures Shape(r)
  {
    FlushRows(s, ParkedUids(s.store, peer, nowS), envs)
  }

  predicate Retryable(m: Row) { m.outgoing && m.dm && m.status == Failed && m.uid != 0 }

  /** The user's Retry on a failed message. */
  function Retry(s: State, uid: nat, env: Env): (r: State)
    requires Shape(s)
    ensures Shape(r)
  {
    var i := FindUid(s.store, uid);
    if i < 0 || !Retryable(s.store[i]) then s
    else Send(s, s.store[i].peer, s.store[i].text, uid, env).0
  }

  /** A received message takes a row of its own. */
  function Receive(s: State, peer: nat, text: seq<char>, nowS: nat): (r: State)
    requires Shape(s)
    ensures Shape(r)
  {
    AddRow(s.(nextUid := s.nextUid + 1), Row(peer, s.nextUid, false, true, NoStatus, 0, nowS, Clip(text)))
  }

  // ---------------------------------------------------------------- the steps

  datatype Step =
    | SubmitStep(dest: nat, data: seq<char>, env: Env)
    | RetryStep(uid: nat, env: Env)
    | RouteFoundStep(dest: nat, envs: seq<Env>)
    | SessionUpStep(dest: nat, envs: seq<Env>)
    | ReapStep(now: nat)
    | GiveUpStep(dest: nat)
    | AckTickStep(now: nat, ticks: seq<Tick>)
    | RouteErrorStep(dest: nat)
    | AckStep(pkt: nat)
    | ParkStep(uid: nat, nowS: nat)
    | CancelStep(uid: nat)
    | ExpireStep(nowS: nat)
    | FlushParkedStep(peer: nat, nowS: nat, envs: seq<Env>)
    | ReceiveStep(peer: nat, text: seq<char>, nowS: nat)
    | OtherFrameStep(dest: nat, limit: nat, retryAt: nat)
    | FloodStep
    | OtherIdStep

  function Do(s: State, step: Step): (r: State)
    requires Shape(s)
    ensures Shape(r)
  {
    match step
    case SubmitStep(dest, data, env) => Send(s, dest, data, 0, env).0
    case RetryStep(uid, env) => Retry(s, uid, env)
    case RouteFoundStep(dest, envs) => Drain(s, dest, 0, envs)
    case SessionUpStep(dest, envs) => SessionFlush(s, dest, 0, envs)
    case ReapStep(now) => Reap(s, now, 0)
    case GiveUpStep(dest) => GiveUp(s, dest, 0)
    case AckTickStep(now, ticks) => AckTick(s, now, 0, ticks)
    case RouteErrorStep(dest) => FailFast(s, dest, 0)
    case AckStep(pkt) => AckArrives(s, pkt)
    case ParkStep(uid, nowS) => Park(s, uid, nowS)
    case CancelStep(uid) => s.(store := Unpark(s.store, uid).0)
    case ExpireStep(nowS) => s.(store := Expire(s.store, nowS))
    case FlushParkedStep(peer, nowS, envs) => FlushParked(s, peer, nowS, envs)
    case ReceiveStep(peer, text, nowS) => Receive(s, peer, text, nowS)
    case OtherFrameStep(dest, limit, retryAt) => TransmitOther(s, dest, limit, retryAt)
    case FloodStep => Flood(s)
    case OtherIdStep => s.(nextPkt := s.nextPkt + 1)
  }

  /** A node that has just booted with an empty store. */
  function Init(cap: nat, firstPkt: nat): State {
    State(seq(SLOTS, i => Entry(false, Route, 0, [], 0, 0, 0)), seq(SLOTS, i => Ack(false, 0, 0, 0, 0, 0, 0)),
          [], cap, firstPkt, 1, [], map[])
  }

  function Run(s: State, steps: seq<Step>): (r: State)
    requires Shape(s)
    ensures Shape(r)
    decreases |steps|
  {
    if steps == [] then s else Do(Run(s, steps[..|steps| - 1]), steps[|steps| - 1])
  }
}
