/**
 * What single handlers of the pipeline do, said of their outcome: which queue
 * entries a timeout, a failed discovery, a new session and an eviction remove
 * and what the log then says of them, that a message taken on has its row, and
 * the order in which a parked conversation goes out.
 */
module PipelineLaws {
  import opened Basics
  import opened MsgStore
  import opened Pipeline
  import I = PipelineInvariant
  import A = PipelineAcks

  // ---------------------------------------------- entries that are dropped

  /** The entries at `hit`, and no other, were freed, and the log says of each
      message among them that it failed, and nothing else. */
  ghost predicate Dropped(s: State, s': State, hit: set<nat>) {
    && |s'.queue| == |s.queue| && s.log <= s'.log && s'.acks == s.acks
    && (forall k :: 0 <= k < |s.queue| ==> s'.queue[k] == if k in hit then s.queue[k].(used := false) else s.queue[k])
    && (forall e :: e in A.Since(s.log, s'.log) <==> e.FailReported? && e.uid != 0 && e.uid in Uids(s.queue, hit))
  }

  function Uids(q: seq<Entry>, hit: set<nat>): set<nat> { set k | k in hit && k < |q| :: q[k].uid }

  lemma DropLaw(s: State, i: nat)
    requires Shape(s) && i < SLOTS
    ensures Dropped(s, Drop(s, i), {i})
  {
    hide UpdateByUid;
    assert Uids(s.queue, {i}) == {s.queue[i].uid};
    assert A.Since(s.log, Drop(s, i).log) == if s.queue[i].uid != 0 then [FailReported(s.queue[i].uid)] else [];
  }

  lemma DroppedNone(s: State)
    ensures Dropped(s, s, {})
  {
  }

  lemma DroppedMore(s: State, t: State, u: State, f: set<nat>, g: set<nat>)
    requires Dropped(s, t, f) && Dropped(t, u, g) && f !! g
    ensures Dropped(s, u, f + g)
  {
    assert A.Since(s.log, u.log) == A.Since(s.log, t.log) + A.Since(t.log, u.log);
    assert Uids(t.queue, g) == Uids(s.queue, g) by {
      forall k | k in g && k < |s.queue| ensures t.queue[k].uid == s.queue[k].uid { }
    }
    assert Uids(s.queue, f + g) == Uids(s.queue, f) + Uids(s.queue, g);
  }

  /** Slots from i on whose entry has waited too long: a minute for a route, two
      and a half for a session. */
  function TooOld(q: seq<Entry>, now: nat, i: nat): set<nat> {
    set k | i <= k < |q| && q[k].used && Age(now, q[k].stamp) > (if q[k].reason == Session then 150_000 else 60_000)
  }

  lemma {:induction false} ReapFrom(s: State, now: nat, i: nat)
    requires Shape(s) && i <= SLOTS
    ensures Dropped(s, Reap(s, now, i), TooOld(s.queue, now, i))
    decreases SLOTS - i
  {
    hide Drop, Dropped;
    if i == SLOTS {
      DroppedNone(s);
      assert TooOld(s.queue, now, i) == {};
    } else {
      var hit := Overdue(s.queue[i], now);
      var t := if hit then Drop(s, i) else s;
      DropLaw(s, i);
      DroppedNone(s);
      ReapFrom(t, now, i + 1);
      DropQueue(s, i);
      assert TooOld(t.queue, now, i + 1) == TooOld(s.queue, now, i + 1);
      assert TooOld(s.queue, now, i) == (if hit then {i} else {}) + TooOld(s.queue, now, i + 1);
      DroppedMore(s, t, Reap(s, now, i), if hit then {i} else {}, TooOld(s.queue, now, i + 1));
    }
  }

  lemma DropQueue(s: State, i: nat)
    requires Shape(s) && i < SLOTS
    ensures Drop(s, i).queue == s.queue[i := s.queue[i].(used := false)]
  {
    hide UpdateByUid;
  }

  /** The reaper: a slot is in use afterwards exactly if it was and its entry has
      waited no longer than 60 s for a route or 150 s for a session, and just the
      messages removed are reported failed. */
  lemma ReapLaw(s: State, now: nat)
    requires Shape(s)
    ensures var s' := Do(s, ReapStep(now));
      && |s'.queue| == SLOTS && s.log <= s'.log
      && (forall k :: 0 <= k < SLOTS ==>
            && (s'.queue[k].used <==> s.queue[k].used && Age(now, s.queue[k].stamp) <= (if s.queue[k].reason == Session then 150_000 else 60_000))
            && s'.queue[k] == s.queue[k].(used := s'.queue[k].used))
      && (forall e :: e in A.Since(s.log, s'.log) <==> e.FailReported? && e.uid != 0 && e.uid in Uids(s.queue, TooOld(s.queue, now, 0)))
  {
    hide Reap;
    ReapFrom(s, now, 0);
  }

  /** Slots from i on that wait for a route to the destination. */
  function RouteWaiters(q: seq<Entry>, dest: nat, i: nat): set<nat> {
    set k | i <= k < |q| && q[k].used && q[k].reason == Route && q[k].dest == dest
  }

  lemma {:induction false} GiveUpFrom(s: State, dest: nat, i: nat)
    requires Shape(s) && i <= SLOTS
    ensures Dropped(s, GiveUp(s, dest, i), RouteWaiters(s.queue, dest, i))
    decreases SLOTS - i
  {
    hide Drop, Dropped;
    if i == SLOTS {
      DroppedNone(s);
      assert RouteWaiters(s.queue, dest, i) == {};
    } else {
      var e := s.queue[i];
      var hit := e.used && e.reason == Route && e.dest == dest;
      var t := if hit then Drop(s, i) else s;
      DropLaw(s, i);
      DroppedNone(s);
      GiveUpFrom(t, dest, i + 1);
      DropQueue(s, i);
      assert RouteWaiters(t.queue, dest, i + 1) == RouteWaiters(s.queue, dest, i + 1);
      assert RouteWaiters(s.queue, dest, i) == (if hit then {i} else {}) + RouteWaiters(s.queue, dest, i + 1);
      DroppedMore(s, t, GiveUp(s, dest, i), if hit then {i} else {}, RouteWaiters(s.queue, dest, i + 1));
    }
  }

  /** Discovery gave up: exactly the entries that waited for a route to that
      destination are freed, and exactly their messages reported failed. */
  lemma GiveUpLaw(s: State, dest: nat)
    requires Shape(s)
    ensures Dropped(s, Do(s, GiveUpStep(dest)), RouteWaiters(s.queue, dest, 0))
  {
    hide GiveUp, Dropped;
    GiveUpFrom(s, dest, 0);
  }

  /** Room for a session waiter: a free slot and nothing changed; else the entry
      that has waited for a session longest, and no other, fails and is freed;
      else, with eight route waiters, no room and nothing changed. */
  lemma MakeRoomLaw(s: State)
    requires Shape(s)
    ensures var (s', i) := MakeRoom(s);
      if (exists k :: 0 <= k < SLOTS && !s.queue[k].used) then s' == s && i < SLOTS && !s.queue[i].used
      else if (exists k :: 0 <= k < SLOTS && s.queue[k].reason == Session) then
        && i < SLOTS && s.queue[i].reason == Session && Dropped(s, s', {i})
        && (forall k :: 0 <= k < SLOTS && s.queue[k].reason == Session ==> s.queue[i].stamp <= s.queue[k].stamp)
      else s' == s && i == SLOTS
  {
    hide FailReport, Dropped;
    var o := OldestSession(s.queue, SLOTS);
    if o < SLOTS { DropLaw(s, o); }
  }

  // ------------------------------------------------------ a new session

  predicate SessionWaiter(e: Entry, dest: nat) { e.used && e.reason == Session && e.dest == dest }

  predicate Ready(env: Env) { env.session == Active && env.txOk }

  /** The log says since then that the message was sent to the destination, or that it failed. */
  ghost predicate Served(s: State, s': State, e: Entry, dest: nat, ready: bool) {
    s.log <= s'.log &&
    if ready then exists j :: |s.log| <= j < |s'.log| && s'.log[j].Transmitted? && s'.log[j].uid == e.uid && s'.log[j].dest == dest && s'.log[j].data == e.data
    else e.uid != 0 ==> exists j :: |s.log| <= j < |s'.log| && s'.log[j] == FailReported(e.uid)
  }

  lemma ServedLater(s: State, t: State, u: State, e: Entry, dest: nat, ready: bool)
    requires s.log <= t.log <= u.log && (Served(s, t, e, dest, ready) || Served(t, u, e, dest, ready))
    ensures Served(s, u, e, dest, ready)
  {
    if Served(s, t, e, dest, ready) {
      if ready {
        var j :| |s.log| <= j < |t.log| && t.log[j].Transmitted? && t.log[j].uid == e.uid && t.log[j].dest == dest && t.log[j].data == e.data;
        assert u.log[j] == t.log[j];
      } else if e.uid != 0 {
        var j :| |s.log| <= j < |t.log| && t.log[j] == FailReported(e.uid);
        assert u.log[j] == t.log[j];
      }
    }
  }

  lemma SessionSlotLaw(s: State, dest: nat, i: nat, env: Env)
    requires Shape(s) && i < SLOTS
    ensures var s', e := SessionSlot(s, dest, i, env), s.queue[i];
      && s.log <= s'.log
      && s'.queue == (if SessionWaiter(e, dest) then s.queue[i := e.(used := false)] else s.queue)
      && (SessionWaiter(e, dest) ==> Served(s, s', e, dest, Ready(env)))
  {
    hide UpdateByUid, AckAdd;
    var s', e := SessionSlot(s, dest, i, env), s.queue[i];
    if SessionWaiter(e, dest) && (Ready(env) || e.uid != 0) { assert s'.log[|s.log|] == if Ready(env) then Transmitted(e.uid, s.nextPkt, dest, e.data) else FailReported(e.uid); }
  }

  lemma {:induction false} SessionFlushFrom(s: State, dest: nat, i: nat, envs: seq<Env>)
    requires Shape(s) && i <= SLOTS
    ensures var s' := SessionFlush(s, dest, i, envs);
      && |s'.queue| == SLOTS && s.log <= s'.log
      && (forall k :: 0 <= k < SLOTS ==>
            s'.queue[k] == if k >= i && SessionWaiter(s.queue[k], dest) then s.queue[k].(used := false) else s.queue[k])
      && (forall k :: i <= k < SLOTS && SessionWaiter(s.queue[k], dest) ==> Served(s, s', s.queue[k], dest, Ready(At(envs, k))))
    decreases SLOTS - i
  {
    hide SessionSlot, Served, SessionWaiter, Ready;
    if i < SLOTS {
      SessionSlotLaw(s, dest, i, At(envs, i));
      var t := SessionSlot(s, dest, i, At(envs, i));
      SessionFlushFrom(t, dest, i + 1, envs);
      var u := SessionFlush(s, dest, i, envs);
      forall k | i <= k < SLOTS && SessionWaiter(s.queue[k], dest) ensures Served(s, u, s.queue[k], dest, Ready(At(envs, k))) {
        ServedLater(s, t, u, s.queue[k], dest, Ready(At(envs, k)));
      }
    }
  }

  /** A session came up: every entry that waited for it is freed and no other
      touched, and each message is sent with the text queued if session and radio
      allow, and reported failed if not. */
  lemma SessionUpLaw(s: State, dest: nat, envs: seq<Env>)
    requires Shape(s)
    ensures var s' := Do(s, SessionUpStep(dest, envs));
      && |s'.queue| == SLOTS
      && (forall k :: 0 <= k < SLOTS ==>
            s'.queue[k] == if SessionWaiter(s.queue[k], dest) then s.queue[k].(used := false) else s.queue[k])
      && (forall k :: 0 <= k < SLOTS && SessionWaiter(s.queue[k], dest) ==> Served(s, s', s.queue[k], dest, Ready(At(envs, k))))
  {
    hide SessionFlush, Served;
    SessionFlushFrom(s, dest, 0, envs);
  }

  // ------------------------------------------------------ a route was found

  /** The log says since then what became of the message: sent, failed, or queued again. */
  ghost predicate Spoken(s: State, s': State, uid: nat) {
    s.log <= s'.log && exists j :: |s.log| <= j < |s'.log| && Says(s'.log[j], uid)
  }

  predicate Says(e: Event, uid: nat) { (e.Transmitted? || e.FailReported? || e.Enqueued?) && e.uid == uid }

  lemma SpokenLater(s: State, t: State, u: State, uid: nat)
    requires s.log <= t.log <= u.log && (Spoken(s, t, uid) || Spoken(t, u, uid))
    ensures Spoken(s, u, uid)
  {
    if Spoken(s, t, uid) {
      var j :| |s.log| <= j < |t.log| && Says(t.log[j], uid);
      assert u.log[j] == t.log[j];
    }
  }

  lemma LastSaid(s: State, s': State, uid: nat)
    requires s.log < s'.log && Says(s'.log[|s'.log| - 1], uid)
    ensures Spoken(s, s', uid)
  {
  }

  lemma QueueSessionSpeaks(s: State, dest: nat, data: seq<char>, uid: nat, now: nat)
    requires Shape(s) && uid != 0 && !Holds(s.queue, uid)
    ensures var q := QueueSession(s, dest, data, uid, now); s.log <= q.0.log && (q.1 != 0 ==> Spoken(s, q.0, uid))
  {
    hide UpdateByUid, OldestSession, FirstFree;
    var q := QueueSession(s, dest, data, uid, now);
    if q.1 != 0 { LastSaid(s, q.0, uid); }
  }

  /** A send of a message the queue does not hold ends in a word about it. */
  lemma SendSpeaks(s: State, dest: nat, data: seq<char>, uid: nat, env: Env)
    requires Shape(s) && uid != 0 && !Holds(s.queue, uid)
    ensures Spoken(s, Send(s, dest, data, uid, env).0, uid)
  {
    hide UpdateByUid, QueueSession, AckAdd, Spoken, Says, FirstFree;
    var s' := Send(s, dest, data, uid, env).0;
    if env.channels && env.reachable && |data| <= MAX_DM && env.session == Handshaking {
      var q := QueueSession(s, dest, data, uid, env.now);
      QueueSessionSpeaks(s, dest, data, uid, env.now);
      if q.1 != 0 { SpokenLater(s, q.0, s', uid); } else { Said(s, s', uid); }
    } else {
      Said(s, s', uid);
    }
  }

  lemma Said(s: State, s': State, uid: nat)
    requires s.log < s'.log && (s'.log[|s'.log| - 1] == FailReported(uid) || s'.log[|s'.log| - 1] == Enqueued(uid)
                                || (s'.log[|s'.log| - 1].Transmitted? && s'.log[|s'.log| - 1].uid == uid))
    ensures Spoken(s, s', uid)
  {
  }

  predicate RouteWaiter(e: Entry, dest: nat) { e.used && e.reason == Route && e.dest == dest }

  lemma DrainSlotLaw(w: I.Since, s: State, dest: nat, i: nat, env: Env)
    requires I.Inv(w, s) && i < SLOTS
    ensures var s' := DrainSlot(s, dest, i, env);
      && s.log <= s'.log
      && (RouteWaiter(s.queue[i], dest) ==> Spoken(s, s', s.queue[i].uid) && !s'.queue[i].used)
      && (forall k :: 0 <= k < SLOTS && k != i && RouteWaiter(s.queue[k], dest) ==> s'.queue[k] == s.queue[k])
  {
    hide Send, Spoken;
    var e := s.queue[i];
    if RouteWaiter(e, dest) {
      var b := Blank(s, i);
      I.BlankKeeps(w, s, i);
      assert I.EntryTrue(s, e);
      I.SendKeeps(w, b, dest, e.data, e.uid, env, i, e.uid);
      SendSpeaks(b, dest, e.data, e.uid, env);
      SendOnly(b, dest, e.data, e.uid, env);
      SpokenHere(s, b, Send(b, dest, e.data, e.uid, env).0, DrainSlot(s, dest, i, env), e.uid);
    }
  }

  lemma SpokenHere(s: State, b: State, t: State, u: State, uid: nat)
    requires Spoken(b, t, uid) && s.log == b.log && t.log == u.log
    ensures Spoken(s, u, uid)
  {
  }

  lemma {:induction false} DrainFrom(w: I.Since, s: State, dest: nat, i: nat, envs: seq<Env>, k: nat)
    requires I.Inv(w, s) && i <= SLOTS
    ensures var s' := Drain(s, dest, i, envs);
      s.log <= s'.log && (i <= k < SLOTS && RouteWaiter(s.queue[k], dest) ==> Spoken(s, s', s.queue[k].uid))
    decreases SLOTS - i
  {
    hide DrainSlot, Spoken, I.Inv;
    I.ShapeOf(w, s);
    if i < SLOTS {
      var t := DrainSlot(s, dest, i, At(envs, i));
      DrainSlotLaw(w, s, dest, i, At(envs, i));
      I.DrainSlotKeeps(w, s, dest, i, At(envs, i));
      DrainFrom(w, t, dest, i + 1, envs, k);
      if i <= k < SLOTS && RouteWaiter(s.queue[k], dest) {
        SpokenLater(s, t, Drain(s, dest, i, envs), s.queue[k].uid);
      }
    }
  }

  /** A route came up, in any reachable state: of every message that waited for
      it the log then says that it was sent, queued again or failed. */
  lemma RouteFoundLaw(cap: nat, firstPkt: nat, steps: seq<Step>, dest: nat, envs: seq<Env>, k: nat)
    requires 0 < cap && 0 < firstPkt && k < SLOTS
    requires RouteWaiter(Run(Init(cap, firstPkt), steps).queue[k], dest)
    ensures var s := Run(Init(cap, firstPkt), steps); Spoken(s, Do(s, RouteFoundStep(dest, envs)), s.queue[k].uid)
  {
    hide Run, Drain, Spoken;
    I.InvEveryRun(cap, firstPkt, steps);
    DrainFrom(I.Boot(), Run(Init(cap, firstPkt), steps), dest, 0, envs, k);
  }

  // ------------------------------------------------- what a send decides

  /** A send of a message the queue does not hold, in full: without channels it
      fails; without a route it is queued for one if a slot is free; else, if it
      has at most 154 bytes, it goes out over an active session, or is queued for
      one being set up if a slot is free or another message waits for a session
      too; everything else fails. Queued, it waits from now on. */
  lemma SendDecides(s: State, dest: nat, data: seq<char>, uid: nat, env: Env)
    requires Shape(s) && uid != 0 && !Holds(s.queue, uid)
    ensures var s' := Send(s, dest, data, uid, env).0;
      var free := exists i :: 0 <= i < SLOTS && !s.queue[i].used;
      var room := free || exists i :: 0 <= i < SLOTS && s.queue[i].used && s.queue[i].reason == Session;
      if env.channels && !env.reachable && free then
        s'.log == s.log + [Enqueued(uid)] && QueuedAt(s, s', Entry(true, Route, dest, data, env.now, 0, uid))
      else if env.channels && env.reachable && |data| <= 154 && env.session == Active && env.txOk then
        s'.log == s.log + [Transmitted(uid, s.nextPkt, dest, data)] && s'.queue == s.queue
      else if env.channels && env.reachable && |data| <= 154 && env.session == Handshaking && room then
        && QueuedAt(MakeRoom(s).0, s', Entry(true, Session, dest, data, env.now, s.nextPkt, uid))
        && HandshakeSent(s, s', dest, uid, env)
      else s'.log == s.log + [FailReported(uid)] && s'.queue == s.queue && s'.acks == s.acks
  {
    hide UpdateByUid, AckAdd, QueueSession;
    assert IndexOfUid(s.queue, uid, 0) == SLOTS;
    if env.channels && env.reachable && |data| <= MAX_DM && env.session == Handshaking {
      SendWaitingDecides(s, dest, data, uid, env);
      hide SendWaiting;
    }
  }

  /** The entry went into a slot that was free. */
  predicate QueuedAt(s: State, s': State, e: Entry) {
    exists i :: 0 <= i < |s.queue| && !s.queue[i].used && s'.queue == s.queue[i := e]
  }

  /** The message was queued, and the handshake started exactly if it was due:
      eight tries, the first retry three seconds on. */
  predicate HandshakeSent(s: State, s': State, dest: nat, uid: nat, env: Env)
    requires Shape(s)
  {
    var log := MakeRoom(s).0.log + [Enqueued(uid)];
    if env.initTx then
      && s'.log == log + [OtherSent(s.nextPkt + 1, dest)]
      && s'.acks == AckAdd(s.acks, s.nextPkt + 1, dest, 0, 8, (env.now + 3000) % WRAP)
    else s'.log == log && s'.acks == s.acks
  }

  lemma SendWaitingDecides(s: State, dest: nat, data: seq<char>, uid: nat, env: Env)
    requires Shape(s) && uid != 0 && !Holds(s.queue, uid)
    ensures var s' := SendWaiting(s, dest, data, uid, env).0;
      if exists i :: 0 <= i < SLOTS && (!s.queue[i].used || s.queue[i].reason == Session) then
        && QueuedAt(MakeRoom(s).0, s', Entry(true, Session, dest, data, env.now, s.nextPkt, uid))
        && HandshakeSent(s, s', dest, uid, env)
      else s'.log == s.log + [FailReported(uid)] && s'.queue == s.queue && s'.acks == s.acks
  {
    hide UpdateByUid, AckAdd, OldestSession;
    assert IndexOfUid(s.queue, uid, 0) == SLOTS;
    var room := MakeRoom(s);
    if room.1 < SLOTS {
      assert !room.0.queue[room.1].used;
      assert SendWaiting(s, dest, data, uid, env).0.queue == room.0.queue[room.1 := Entry(true, Session, dest, data, env.now, s.nextPkt, uid)];
    }
  }

  // ------------------------------------------------- retry, park and flush

  /** The user's Retry: a FAILED outgoing DM not in the queue is sent again, and
      the log then says what became of it; on any other row it does nothing. */
  lemma RetryLaw(s: State, uid: nat, env: Env)
    requires Shape(s) && DistinctUids(s.store)
    ensures var s' := Do(s, RetryStep(uid, env));
      if exists m :: m in s.store && m.uid == uid && m.outgoing && m.dm && m.status == Failed
      then !Holds(s.queue, uid) ==> Spoken(s, s', uid)
      else s' == s
  {
    hide Send, Spoken, FindUid;
    var i := FindUid(s.store, uid);
    if m :| m in s.store && m.uid == uid && m.outgoing && m.dm && m.status == Failed {
      var k :| 0 <= k < |s.store| && s.store[k] == m;
      assert i == k;
      if !Holds(s.queue, uid) { SendSpeaks(s, m.peer, m.text, uid, env); }
    } else if i >= 0 {
      assert s.store[i] in s.store;
    }
  }

  /** Park: of all rows just the uid's becomes QUEUED, and that exactly if it was
      stamped no more than two hours ago, or the clock is behind its stamp. */
  lemma ParkLaw(s: State, uid: nat, nowS: nat, k: nat)
    requires Shape(s) && DistinctUids(s.store) && k < |s.store|
    ensures var s', m := Do(s, ParkStep(uid, nowS)), s.store[k];
      && |s'.store| == |s.store| && s'.(store := s.store) == s
      && s'.store[k] == if m.uid == uid && nowS <= m.stamp + 7200 then m.(status := Queued) else m
  {
    var i := FindUid(s.store, uid);
    assert s.store[k].uid == uid ==> i == k;
  }

  /** Cancel: of all rows just the uid's fails, and that exactly if it is QUEUED. */
  lemma CancelLaw(s: State, uid: nat, k: nat)
    requires Shape(s) && DistinctUids(s.store) && k < |s.store|
    ensures var s', m := Do(s, CancelStep(uid)), s.store[k];
      && |s'.store| == |s.store| && s'.(store := s.store) == s
      && s'.store[k] == if m.uid == uid && m.status == Queued then m.(status := Failed) else m
  {
    var i := FindUid(s.store, uid);
    assert s.store[k].uid == uid ==> i == k;
  }

  /** Expiry: exactly the parked rows stamped more than two hours ago fail. */
  lemma ExpireLaw(s: State, nowS: nat, k: nat)
    requires Shape(s) && k < |s.store|
    ensures var s', m := Do(s, ExpireStep(nowS)), s.store[k];
      && |s'.store| == |s.store| && s'.(store := s.store) == s
      && s'.store[k] == if m.outgoing && m.dm && m.uid != 0 && m.status == Queued && nowS > m.stamp + 7200 then m.(status := Failed) else m
  {
  }

  /** Queuing a message for a session again gives the same tracking id and changes nothing. */
  lemma QueuedTwice(s: State, dest: nat, data: seq<char>, uid: nat, now: nat, data': seq<char>, now': nat)
    requires Shape(s) && uid != 0
    ensures var q := QueueSession(s, dest, data, uid, now); q.1 != 0 && !Holds(s.queue, uid) ==> QueueSession(q.0, dest, data', uid, now') == q
  {
    hide UpdateByUid, OldestSession;
    var q := QueueSession(s, dest, data, uid, now);
    if q.1 != 0 && !Holds(s.queue, uid) {
      var i := MakeRoom(s).1;
      assert IndexOfUid(s.queue, uid, 0) == SLOTS;
      assert q.0.queue[i].used && q.0.queue[i].uid == uid && q.0.queue[i].pkt == q.1;
      assert forall k :: 0 <= k < SLOTS && k != i && q.0.queue[k].used ==> s.queue[k].used && q.0.queue[k].uid == s.queue[k].uid;
      assert IndexOfUid(q.0.queue, uid, 0) == i;
    }
  }

  // ------------------------------------------------------ a message and its row

  predicate HasRow(s: State, uid: nat, dest: nat, text: seq<char>) {
    exists m :: m in s.store && m.uid == uid && m.peer == dest && m.text == Clip(text) && m.outgoing && m.dm && m.status in {NoStatus, Sent}
  }

  lemma LastRow(s: State, row: Row)
    requires Shape(s)
    ensures row in AddRow(s, row).store
  {
    var rows := AddRow(s, row).store;
    assert rows[|rows| - 1] == row;
  }

  /** A message the user submits is taken on exactly if a nonzero id comes back,
      and then it has a row of its own, under the next uid, with its text and
      peer; a refused one leaves the store as it was. */
  lemma SubmitLaw(s: State, dest: nat, data: seq<char>, env: Env)
    requires Shape(s) && FindUid(s.store, s.nextUid) < 0
    ensures var (s', id) := Send(s, dest, data, 0, env);
      if id != 0 then HasRow(s', s.nextUid, dest, data) && s'.nextUid == s.nextUid + 1 else s'.store == s.store
  {
    hide AddRow, QueueSession, QueueMessage, TransmitOther;
    if env.channels && !env.reachable {
      var q := QueueMessage(Register(s, dest, data), dest, data, s.nextUid, env.now);
      QueueMessageStore(Register(s, dest, data), dest, data, s.nextUid, env.now);
      var row := Row(dest, s.nextUid, true, true, NoStatus, 0, env.nowS, Clip(data));
      LastRow(q.0, row);
      AddRowUid(q.0, row);
    } else if env.channels && |data| <= MAX_DM {
      if env.session == Handshaking { WaitingLaw(s, dest, data, env); }
      if env.session == Active && env.txOk { ActiveLaw(s, dest, data, env); }
    }
  }

  lemma AddRowUid(s: State, row: Row)
    requires Shape(s)
    ensures AddRow(s, row).nextUid == s.nextUid
  {
  }

  lemma QueueMessageStore(s: State, dest: nat, data: seq<char>, uid: nat, now: nat)
    requires Shape(s)
    ensures var q := QueueMessage(s, dest, data, uid, now).0; q.store == s.store && q.nextUid == s.nextUid
  {
  }

  lemma ActiveLaw(s: State, dest: nat, data: seq<char>, env: Env)
    requires Shape(s) && FindUid(s.store, s.nextUid) < 0 && env.txOk
    ensures var (s', id) := SendActive(s, dest, data, 0, env);
      id == s.nextPkt && HasRow(s', s.nextUid, dest, data) && s'.nextUid == s.nextUid + 1
  {
    var t := Transmit(Register(s, dest, data), s.nextUid, dest, data, env.now);
    LastRow(t, Row(dest, s.nextUid, true, true, Sent, s.nextPkt, env.nowS, Clip(data)));
  }

  lemma WaitingLaw(s: State, dest: nat, data: seq<char>, env: Env)
    requires Shape(s) && FindUid(s.store, s.nextUid) < 0
    ensures var (s', id) := SendWaiting(s, dest, data, 0, env);
      if id != 0 then HasRow(s', s.nextUid, dest, data) && s'.nextUid == s.nextUid + 1 else s'.store == s.store
  {
    hide QueueSession, AddRow;
    var q := QueueSession(Register(s, dest, data), dest, data, s.nextUid, env.now);
    QueueSessionUid(Register(s, dest, data), dest, data, s.nextUid, env.now);
    var t := if env.initTx then TransmitOther(q.0, dest, KE_TRIES, (env.now + KE_DELAY_MS) % WRAP) else q.0;
    var row := Row(dest, s.nextUid, true, true, NoStatus, 0, env.nowS, Clip(data));
    LastRow(t, row);
    AddRowUid(t, row);
  }

  lemma QueueSessionUid(s: State, dest: nat, data: seq<char>, uid: nat, now: nat)
    requires Shape(s)
    ensures var q := QueueSession(s, dest, data, uid, now); q.0.nextUid == s.nextUid && (q.1 == 0 ==> q.0.store == s.store)
  {
    hide UpdateByUid;
  }

  /** A frame goes out: the message's row records its packet id and shows it SENT
      unless it is parked, the log has it,
      and if the table had room it is tracked with three tries, the first due two
      seconds on. */
  lemma LaunchLaw(s: State, dest: nat, data: seq<char>, uid: nat, env: Env)
    requires Shape(s) && uid != 0 && env.txOk
    ensures var s' := SendActive(s, dest, data, uid, env).0;
      && (exists m :: m in s'.store && m.uid == uid && m.pkt == s.nextPkt && m.status in {Sent, Queued})
      && s'.log == s.log + [Transmitted(uid, s.nextPkt, dest, data)]
      && ((exists i :: 0 <= i < SLOTS && !s.acks[i].active) ==>
          exists i :: 0 <= i < SLOTS && !s.acks[i].active && s'.acks == s.acks[i := Ack(true, s.nextPkt, dest, uid, 0, 3, (env.now + 2000) % WRAP)])
  {
    var t := Transmit(s, uid, dest, data, env.now);
    var s' := SendActive(s, dest, data, uid, env).0;
    var i := FindUid(s.store, uid);
    if i >= 0 {
      assert s'.store[i] in s'.store;
    } else {
      LastRow(t, Row(dest, uid, true, true, Sent, s.nextPkt, env.nowS, Clip(data)));
    }
    var f := FreeAck(s.acks, 0);
    if f < SLOTS { assert s'.acks == s.acks[f := Ack(true, s.nextPkt, dest, uid, 0, 3, (env.now + 2000) % WRAP)]; }
  }

  /** A received message gets an incoming row under a uid of its own, and no other row changes. */
  lemma ReceiveLaw(s: State, peer: nat, text: seq<char>, nowS: nat)
    requires Shape(s)
    ensures var s' := Do(s, ReceiveStep(peer, text, nowS));
      && s'.store[|s'.store| - 1..] == [Row(peer, s.nextUid, false, true, NoStatus, 0, nowS, Clip(text))]
      && s'.store[..|s'.store| - 1] == (if |s.store| < s.cap then s.store else s.store[1..])
      && s'.nextUid == s.nextUid + 1
  {
  }

  // --------------------------------------------- a parked conversation's order

  /** New frames since then are all of this message. */
  predicate Only(s: State, s': State, uid: nat) {
    s.log <= s'.log && forall j :: |s.log| <= j < |s'.log| && s'.log[j].Transmitted? ==> s'.log[j].uid == uid
  }

  lemma OnlyTrans(s: State, t: State, u: State, uid: nat)
    requires Only(s, t, uid) && Only(t, u, uid)
    ensures Only(s, u, uid)
  {
    forall j | |s.log| <= j < |u.log| && u.log[j].Transmitted? ensures u.log[j].uid == uid {
      if j < |t.log| { assert u.log[j] == t.log[j]; }
    }
  }

  lemma QueueSessionOnly(s: State, dest: nat, data: seq<char>, uid: nat, now: nat)
    requires Shape(s)
    ensures Only(s, QueueSession(s, dest, data, uid, now).0, uid)
  {
    hide UpdateByUid;
  }

  lemma SendOnly(s: State, dest: nat, data: seq<char>, uid: nat, env: Env)
    requires Shape(s) && uid != 0
    ensures Only(s, Send(s, dest, data, uid, env).0, uid)
  {
    hide UpdateByUid, QueueSession, AckAdd;
    var q := QueueSession(s, dest, data, uid, env.now);
    QueueSessionOnly(s, dest, data, uid, env.now);
    assert Only(q.0, FailReport(q.0, uid), uid);
    OnlyTrans(s, q.0, FailReport(q.0, uid), uid);
    var h := TransmitOther(q.0, dest, KE_TRIES, (env.now + KE_DELAY_MS) % WRAP);
    assert Only(q.0, h, uid);
    OnlyTrans(s, q.0, h, uid);
  }

  lemma FlushRowOnly(s: State, uid: nat, env: Env)
    requires Shape(s) && uid != 0
    ensures Only(s, FlushRow(s, uid, env), uid)
  {
    hide Send;
    var i := FindUid(s.store, uid);
    if i >= 0 { SendOnly(s, s.store[i].peer, s.store[i].text, uid, env); }
  }

  lemma {:induction false} FlushRowsOnly(s: State, uids: seq<nat>, envs: seq<Env>, j: nat)
    requires Shape(s) && (forall k :: 0 <= k < |uids| ==> uids[k] != 0)
    ensures s.log <= FlushRows(s, uids, envs).log
    ensures var log := FlushRows(s, uids, envs).log; |s.log| <= j < |log| && log[j].Transmitted? ==> log[j].uid in uids
    decreases |uids|
  {
    hide FlushRow;
    if uids != [] {
      var t := FlushRow(s, uids[0], At(envs, 0));
      FlushRowOnly(s, uids[0], At(envs, 0));
      FlushRowsOnly(t, uids[1..], if envs == [] then [] else envs[1..], j);
      var log := FlushRows(s, uids, envs).log;
      if |s.log| <= j < |t.log| { assert log[j] == t.log[j]; }
    }
  }

  lemma {:induction false} FlushRowsOrder(s: State, uids: seq<nat>, envs: seq<Env>, a: nat, b: nat, x: nat, y: nat)
    requires Shape(s) && (forall k :: 0 <= k < |uids| ==> uids[k] != 0) && (forall j, k :: 0 <= j < k < |uids| ==> uids[j] != uids[k])
    requires a < b < |uids|
    requires var log := FlushRows(s, uids, envs).log;
      && |s.log| <= x < |log| && log[x].Transmitted? && log[x].uid == uids[a]
      && |s.log| <= y < |log| && log[y].Transmitted? && log[y].uid == uids[b]
    ensures x < y
    decreases |uids|
  {
    hide FlushRow, Only;
    var t, rest := FlushRow(s, uids[0], At(envs, 0)), if envs == [] then [] else envs[1..];
    FlushRowsOnly(t, uids[1..], rest, x);
    FlushRowOnly(s, uids[0], At(envs, 0));
    NotFirst(s, t, FlushRows(s, uids, envs), uids[0], uids[b], y);
    if a == 0 {
      assert uids[0] !in uids[1..];
    } else {
      NotFirst(s, t, FlushRows(s, uids, envs), uids[0], uids[a], x);
      FlushRowsOrder(t, uids[1..], rest, a - 1, b - 1, x, y);
    }
  }

  /** While one message is being sent, no frame of another goes out. */
  lemma NotFirst(s: State, t: State, u: State, uid: nat, other: nat, x: nat)
    requires Only(s, t, uid) && t.log <= u.log && uid != other
    requires |s.log| <= x < |u.log| && u.log[x].Transmitted? && u.log[x].uid == other
    ensures |t.log| <= x
  {
    assert forall j :: 0 <= j < |t.log| ==> t.log[j] == u.log[j];
  }

  /** A parked conversation goes out in the order it was written: in every
      reachable state, of two rows of the peer that one flush puts on the air,
      the older one's frame comes first. */
  lemma FlushKeepsOrder(cap: nat, firstPkt: nat, steps: seq<Step>, peer: nat, nowS: nat, envs: seq<Env>, i: nat, j: nat, x: nat, y: nat)
    requires 0 < cap && 0 < firstPkt
    requires var s := Run(Init(cap, firstPkt), steps);
      var log := FlushParked(s, peer, nowS, envs).log;
      && i < j < |s.store| && Picked(s.store[i], peer, nowS) && Picked(s.store[j], peer, nowS)
      && |s.log| <= x < |log| && log[x].Transmitted? && log[x].uid == s.store[i].uid
      && |s.log| <= y < |log| && log[y].Transmitted? && log[y].uid == s.store[j].uid
    ensures x < y
  {
    hide Run, FlushRows, ParkedUids, PickedAt, Picked;
    I.InvEveryRun(cap, firstPkt, steps);
    var s := Run(Init(cap, firstPkt), steps);
    var uids := ParkedUids(s.store, peer, nowS);
    var at := PickedAt(s.store, peer, nowS, |s.store|);
    ParkedOldestFirst(s.store, peer, nowS);
    var a :| 0 <= a < |at| && at[a] == i;
    var b :| 0 <= b < |at| && at[b] == j;
    assert a < b;
    DistinctList(s, at, uids);
    FlushRowsOrder(s, uids, envs, a, b, x, y);
  }

  lemma DistinctList(s: State, at: seq<nat>, uids: seq<nat>)
    requires DistinctUids(s.store) && |uids| == |at| && (forall k :: 0 <= k < |at| ==> at[k] < |s.store| && uids[k] == s.store[at[k]].uid)
    requires (forall u :: u in uids ==> u != 0) && (forall j, k :: 0 <= j < k < |at| ==> at[j] < at[k])
    ensures (forall k :: 0 <= k < |uids| ==> uids[k] != 0) && forall j, k :: 0 <= j < k < |uids| ==> uids[j] != uids[k]
  {
    forall j, k | 0 <= j < k < |uids| ensures uids[j] != uids[k] { assert at[j] < at[k]; }
  }
}
