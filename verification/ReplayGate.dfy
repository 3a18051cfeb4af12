/**
 * The replay gate of handle_data (main/mesh_task.c): tier one, the send-time
 * bound, the tier-two record of every tier-one chat acceptance, and tier-two
 * acceptance of late chat, composed in the order the handler runs them.
 *
 * The run theorems say how often one authenticated frame can pass the gate
 * when the network may duplicate, delay and reorder it at will.
 */
module ReplayGate {
  import opened Basics
  import W = ReplayWindow
  import D = ReplayDeferred

  /** One decrypted frame reaching the gate, with the clock readings the handler takes. */
  datatype Rx = Rx(src: nat, counter: nat, chat: bool, sentAt: nat, nowMs: nat, nowS: nat, confident: bool)

  /** Both tiers with the three eviction counters the code keeps beside them. */
  datatype Gate = Gate(window: W.Table, cache: D.Cache, recycled: nat, evicted: nat, refused: nat)

  function Record(g: Gate, o: D.Outcome): Gate
  {
    g.(cache := o.cache,
       evicted := g.evicted + (if o.find.Found? && o.find.evicted then 1 else 0),
       refused := g.refused + (if o.find.Denied? then 1 else 0))
  }

  /** The gate: does the frame go on to delivery, and what do the tables become? */
  function Pass(g: Gate, rx: Rx): (r: (bool, Gate))
  {
    var v := W.Check(g.window, rx.src, rx.counter, rx.nowMs).0;
    var g1 := g.(window := W.Check(g.window, rx.src, rx.counter, rx.nowMs).1,
                 recycled := g.recycled + (if W.Recycles(g.window, rx.src, rx.nowMs) then 1 else 0));
    if v != W.Accept && v != W.BelowWindow then (false, g1)
    else if v == W.Accept then
      if !rx.chat then (true, g1)
      else if rx.confident && D.Stale(rx.sentAt, rx.nowS) then (false, g1)
      else (true, Record(g1, D.MarkSeen(g1.cache, rx.src, rx.counter, rx.nowS)))
    else if !rx.chat then (false, g1)
    else
      var o := D.TryAccept(g1.cache, rx.src, rx.counter, rx.sentAt, rx.nowS, rx.confident);
      (o.accepted, Record(g1, o))
  }

  function Next(g: Gate, rx: Rx): Gate { Pass(g, rx).1 }

  /** Did the i-th arrival pass? */
  predicate Passes(g: Gate, rxs: seq<Rx>, i: nat)
    requires i < |rxs|
    decreases i
  {
    if i == 0 then Pass(g, rxs[0]).0 else Passes(Next(g, rxs[0]), rxs[1..], i - 1)
  }

  /** The gate just before the i-th arrival. */
  function After(g: Gate, rxs: seq<Rx>, i: nat): Gate
    requires i <= |rxs|
    decreases i
  {
    if i == 0 then g else After(Next(g, rxs[0]), rxs[1..], i - 1)
  }

  lemma NextKeepsTableOk(g: Gate, rx: Rx)
    requires W.TableOk(g.window)
    ensures W.TableOk(Next(g, rx).window)
  {
    W.CheckKeepsTableOk(g.window, rx.src, rx.counter, rx.nowMs);
  }

  lemma {:induction false} AfterKeepsTableOk(g: Gate, rxs: seq<Rx>, i: nat)
    requires i <= |rxs| && W.TableOk(g.window)
    ensures W.TableOk(After(g, rxs, i).window)
    decreases i
  {
    hide Pass;
    if i > 0 {
      NextKeepsTableOk(g, rxs[0]);
      AfterKeepsTableOk(Next(g, rxs[0]), rxs[1..], i - 1);
    }
  }

  lemma {:induction false} AfterStep(g: Gate, rxs: seq<Rx>, i: nat)
    requires i < |rxs|
    ensures After(g, rxs, i + 1) == Next(After(g, rxs, i), rxs[i])
    ensures Passes(g, rxs, i) == Pass(After(g, rxs, i), rxs[i]).0
    decreases i
  {
    hide Pass;
    if i > 0 { AfterStep(Next(g, rxs[0]), rxs[1..], i - 1); }
  }

  predicate SameFrame(a: Rx, b: Rx) { a.src == b.src && a.counter == b.counter && a.chat == b.chat && a.sentAt == b.sentAt }

  // ------------------------------------------- exactly when one frame passes

  /** Tier one would take the counter: the sender has, or can get, a slot, and
      the slot neither remembers the counter nor has moved past it. */
  predicate WindowTakes(g: Gate, rx: Rx) {
    && !W.SlotFor(g.window, rx.src, rx.nowMs).Denied?
    && !W.Remembers(g.window, rx.src, rx.counter)
    && !W.Passed(g.window, rx.src, rx.counter)
  }

  /** Tier two would take the late chat frame. */
  predicate CacheTakes(g: Gate, rx: Rx) {
    && W.Passed(g.window, rx.src, rx.counter)
    && rx.chat && rx.confident && !D.Stale(rx.sentAt, rx.nowS)
    && !D.Has(g.cache, rx.src, rx.counter)
    && !D.Alloc(g.cache, rx.nowS).Denied?
  }

  lemma RecyclingSenderIsUnknown(t: W.Table, src: nat, c: nat, now: nat)
    requires W.TableOk(t) && W.Recycles(t, src, now)
    ensures !W.Remembers(t, src, c) && !W.Passed(t, src, c)
    ensures W.Check(t, src, c, now).0 == W.Accept
  {
  }

  /** The gate's verdict, read off the tables before the call. */
  lemma PassIff(g: Gate, rx: Rx)
    requires W.TableOk(g.window)
    ensures Pass(g, rx).0 <==>
            (WindowTakes(g, rx) && !(rx.chat && rx.confident && D.Stale(rx.sentAt, rx.nowS))) || CacheTakes(g, rx)
  {
    if W.Recycles(g.window, rx.src, rx.nowMs) {
      RecyclingSenderIsUnknown(g.window, rx.src, rx.counter, rx.nowMs);
    } else {
      W.CheckVerdict(g.window, rx.src, rx.counter, rx.nowMs);
      W.CheckTouchesOneSlot(g.window, rx.src, rx.counter, rx.nowMs);
    }
    D.AcceptRecords(g.cache, rx.src, rx.counter, rx.sentAt, rx.nowS, rx.confident);
  }

  /** A copy right behind a frame that passed without recycling a slot is refused. */
  lemma SecondCopyAtOnce(g: Gate, rx: Rx)
    requires W.TableOk(g.window) && Pass(g, rx).0 && !rx.confident && !W.Recycles(g.window, rx.src, rx.nowMs)
    ensures !Pass(Next(g, rx), rx).0
  {
    NextKeepsTableOk(g, rx);
    W.CheckVerdict(g.window, rx.src, rx.counter, rx.nowMs);
    PassIff(Next(g, rx), rx);
  }

  /** A session DM carries no send time (it is 0), so the chat send-time bound
      drops it whenever the clock is trusted and more than a day past its epoch:
      such a DM passes exactly when that is not so and one of the tiers takes it. */
  lemma SessionDmPassIff(g: Gate, rx: Rx)
    requires W.TableOk(g.window)
    requires rx.chat && rx.sentAt == 0 && rx.nowS + D.SKEW_S < WRAP
    ensures Pass(g, rx).0 <==> !(rx.confident && rx.nowS > D.TTL_S) && (WindowTakes(g, rx) || CacheTakes(g, rx))
  {
    PassIff(g, rx);
  }

  /** It does happen: at 86,401 s the very first DM of a peer is dropped, and at 86,400 s it was not. */
  lemma SessionDmDropped(g: Gate)
    requires W.TableOk(g.window) && !g.window[0].used
    ensures var dm := Rx(1, 5, true, 0, 0, D.TTL_S, true); Pass(g, dm).0 && !Pass(g, dm.(nowS := D.TTL_S + 1)).0
  {
    assert W.ScanStop(g.window, 1, 0) == 0;
    hide Pass;
    SessionDmPassIff(g, Rx(1, 5, true, 0, 0, D.TTL_S, true));
    SessionDmPassIff(g, Rx(1, 5, true, 0, 0, D.TTL_S + 1, true));
  }

  // ------------------------------------------------- copies of one frame

  /** Tier one knows the frame: its counter is remembered or below the window. */
  predicate SlotKnows(g: Gate, f: Rx) {
    W.Remembers(g.window, f.src, f.counter) || W.Passed(g.window, f.src, f.counter)
  }

  predicate HasRecord(g: Gate, f: Rx) { D.Has(g.cache, f.src, f.counter) }

  predicate SamePair(a: Rx, b: Rx) { a.src == b.src && a.counter == b.counter }

  /** The arrival is given the slot of `src`. */
  predicate TakesSlot(g: Gate, rx: Rx, src: nat) { W.Displaces(g.window, rx.src, rx.nowMs, src) }

  /** The arrival finds no room for its record. */
  predicate Refuses(g: Gate, rx: Rx) { Next(g, rx).refused != g.refused }

  /** The arrival's record is written over the frame's. */
  predicate TakesRecord(g: Gate, rx: Rx, f: Rx) {
    var a := D.Alloc(g.cache, rx.nowS);
    Next(g, rx).evicted != g.evicted && a.Found? && D.Matches(g.cache[a.index], f.src, f.counter)
  }

  /** A frame tier one knows passes exactly when tier two takes it. */
  lemma KnownPassIff(g: Gate, rx: Rx)
    requires W.TableOk(g.window) && SlotKnows(g, rx)
    ensures Pass(g, rx).0 <==> CacheTakes(g, rx)
  {
    hide Pass;
    PassIff(g, rx);
  }

  lemma SlotKept(g: Gate, rx: Rx, f: Rx)
    requires W.TableOk(g.window) && SlotKnows(g, f) && !TakesSlot(g, rx, f.src)
    ensures SlotKnows(Next(g, rx), f)
  {
    W.CheckKeepsMemory(g.window, rx.src, rx.counter, rx.nowMs, f.src, f.counter);
  }

  lemma PassLearnsSlot(g: Gate, rx: Rx)
    requires W.TableOk(g.window) && Pass(g, rx).0
    ensures SlotKnows(Next(g, rx), rx)
  {
    if W.Check(g.window, rx.src, rx.counter, rx.nowMs).0 == W.Accept {
      W.AcceptedIsRemembered(g.window, rx.src, rx.counter, rx.nowMs);
    } else {
      if W.Recycles(g.window, rx.src, rx.nowMs) { RecyclingSenderIsUnknown(g.window, rx.src, rx.counter, rx.nowMs); }
      W.CheckVerdict(g.window, rx.src, rx.counter, rx.nowMs);
      W.CheckKeepsMemory(g.window, rx.src, rx.counter, rx.nowMs, rx.src, rx.counter);
    }
  }

  /** What an arrival does to the records: nothing, or one recording. */
  lemma CacheStep(g: Gate, rx: Rx)
    ensures var h, o := Next(g, rx), D.MarkSeen(g.cache, rx.src, rx.counter, rx.nowS);
      && (h.cache == g.cache || h.cache == o.cache)
      && (h.cache != g.cache ==> (h.evicted != g.evicted <==> o.find.Found? && o.find.evicted))
      && (Pass(g, rx).0 && rx.chat ==> h.cache == o.cache && (h.refused != g.refused <==> o.find.Denied?))
  {
    hide W.Check, D.MarkSeen, D.TryAccept;
    D.AcceptRecords(g.cache, rx.src, rx.counter, rx.sentAt, rx.nowS, rx.confident);
    D.StoreStep(g.cache, rx.src, rx.counter, rx.nowS, rx.src, rx.counter);
  }

  lemma RecordKept(g: Gate, rx: Rx, f: Rx)
    requires HasRecord(g, f) && !TakesRecord(g, rx, f)
    ensures HasRecord(Next(g, rx), f)
  {
    hide Pass;
    CacheStep(g, rx);
    D.StoreStep(g.cache, rx.src, rx.counter, rx.nowS, f.src, f.counter);
  }

  lemma RecordMade(g: Gate, rx: Rx)
    requires Pass(g, rx).0 && rx.chat && !Refuses(g, rx)
    ensures HasRecord(Next(g, rx), rx)
  {
    hide Pass;
    CacheStep(g, rx);
    D.StoreStep(g.cache, rx.src, rx.counter, rx.nowS, rx.src, rx.counter);
  }

  /** A refused frame has no record, and only an arrival of its own gives it one. */
  lemma RefusedHasNone(g: Gate, rx: Rx)
    requires Pass(g, rx).0 && rx.chat && Refuses(g, rx)
    ensures !HasRecord(Next(g, rx), rx)
  {
    hide Pass;
    CacheStep(g, rx);
  }

  lemma NoneStays(g: Gate, rx: Rx, f: Rx)
    requires !HasRecord(g, f) && !SamePair(rx, f)
    ensures !HasRecord(Next(g, rx), f)
  {
    hide Pass;
    CacheStep(g, rx);
  }

  // ------------------------------------------------------ over every run

  /** From the i-th arrival up to the j-th nobody was given the slot of `src`. */
  predicate SlotStays(g: Gate, rxs: seq<Rx>, i: nat, j: nat, src: nat)
    requires j <= |rxs|
  {
    forall k :: i < k < j ==> !TakesSlot(After(g, rxs, k), rxs[k], src)
  }

  /** ... nor the record of `f`. */
  predicate RecordStays(g: Gate, rxs: seq<Rx>, i: nat, j: nat, f: Rx)
    requires j <= |rxs|
  {
    forall k :: i < k < j ==> !TakesRecord(After(g, rxs, k), rxs[k], f)
  }

  lemma {:induction false} SlotKnownLater(g: Gate, rxs: seq<Rx>, i: nat, j: nat)
    requires W.TableOk(g.window) && i < j <= |rxs| && Passes(g, rxs, i) && SlotStays(g, rxs, i, j, rxs[i].src)
    ensures SlotKnows(After(g, rxs, j), rxs[i])
    decreases j
  {
    hide Pass, Passes, After, SlotKnows, TakesSlot, W.TableOk;
    AfterStep(g, rxs, j - 1);
    AfterKeepsTableOk(g, rxs, j - 1);
    if j == i + 1 {
      PassLearnsSlot(After(g, rxs, i), rxs[i]);
    } else {
      SlotKnownLater(g, rxs, i, j - 1);
      SlotKept(After(g, rxs, j - 1), rxs[j - 1], rxs[i]);
    }
  }

  /** A copy of a frame that has passed, in any run in which its sender's own
      slot stays: it passes again exactly when tier two takes it, which needs a
      dated or undated chat frame below the window, a trusted clock, a fresh
      send time, no record of it, and room for one. */
  lemma CopyPassesIff(g: Gate, rxs: seq<Rx>, i: nat, j: nat)
    requires W.TableOk(g.window) && i < j < |rxs| && SameFrame(rxs[i], rxs[j])
    requires Passes(g, rxs, i) && SlotStays(g, rxs, i, j, rxs[i].src)
    ensures Passes(g, rxs, j) <==> CacheTakes(After(g, rxs, j), rxs[j])
  {
    hide Pass, Passes, After, CacheTakes, SlotStays, W.TableOk;
    SlotKnownLater(g, rxs, i, j);
    AfterKeepsTableOk(g, rxs, j);
    AfterStep(g, rxs, j);
    KnownPassIff(After(g, rxs, j), rxs[j]);
  }

  lemma {:induction false} RecordLater(g: Gate, rxs: seq<Rx>, i: nat, j: nat)
    requires i < j <= |rxs| && Passes(g, rxs, i) && rxs[i].chat
    requires !Refuses(After(g, rxs, i), rxs[i]) && RecordStays(g, rxs, i, j, rxs[i])
    ensures HasRecord(After(g, rxs, j), rxs[i])
    decreases j
  {
    hide Pass, Passes, After, HasRecord, TakesRecord, Refuses;
    AfterStep(g, rxs, j - 1);
    if j == i + 1 {
      RecordMade(After(g, rxs, i), rxs[i]);
    } else {
      RecordLater(g, rxs, i, j - 1);
      RecordKept(After(g, rxs, j - 1), rxs[j - 1], rxs[i]);
    }
  }

  /**
   * At most once, frame by frame: whatever else the tables evict, refuse or
   * recycle, no two copies of a frame pass while its sender's own slot stays
   * and, for chat, its own record was made and stays.
   */
  lemma AtMostOnce(g: Gate, rxs: seq<Rx>, i: nat, j: nat)
    requires W.TableOk(g.window) && i < j < |rxs| && SameFrame(rxs[i], rxs[j])
    requires SlotStays(g, rxs, i, j, rxs[i].src)
    requires rxs[i].chat ==> !Refuses(After(g, rxs, i), rxs[i]) && RecordStays(g, rxs, i, j, rxs[i])
    ensures !(Passes(g, rxs, i) && Passes(g, rxs, j))
  {
    hide Pass, Passes, After, SlotStays, RecordStays, Refuses, W.TableOk;
    if Passes(g, rxs, i) {
      CopyPassesIff(g, rxs, i, j);
      if rxs[i].chat { RecordLater(g, rxs, i, j); }
    }
  }

  /** A session DM carries no send time, so tier two can only take a copy of it
      on a trusted clock within a day of its epoch: at any other moment the
      sender's slot alone keeps the copy out. */
  lemma SessionDmOnce(g: Gate, rxs: seq<Rx>, i: nat, j: nat)
    requires W.TableOk(g.window) && i < j < |rxs| && SameFrame(rxs[i], rxs[j])
    requires rxs[i].chat && rxs[i].sentAt == 0 && SlotStays(g, rxs, i, j, rxs[i].src)
    requires !rxs[j].confident || rxs[j].nowS > D.TTL_S
    ensures !(Passes(g, rxs, i) && Passes(g, rxs, j))
  {
    hide Pass, Passes, After, SlotStays, W.TableOk;
    if Passes(g, rxs, i) { CopyPassesIff(g, rxs, i, j); }
  }

  /** A frame that passed but was refused its record passes again exactly when
      it has fallen below the window, the clock is trusted, its send time still
      fresh, and a record free or past its lifetime. */
  lemma RefusedPassesAgainIff(g: Gate, rxs: seq<Rx>, i: nat, j: nat)
    requires W.TableOk(g.window) && i < j < |rxs| && SameFrame(rxs[i], rxs[j]) && rxs[i].chat
    requires Passes(g, rxs, i) && SlotStays(g, rxs, i, j, rxs[i].src) && Refuses(After(g, rxs, i), rxs[i])
    requires forall k :: i < k < j ==> !SamePair(rxs[k], rxs[i])
    ensures var h, rx := After(g, rxs, j), rxs[j];
      Passes(g, rxs, j) <==>
        && W.Passed(h.window, rx.src, rx.counter) && rx.confident && !D.Stale(rx.sentAt, rx.nowS)
        && !D.Alloc(h.cache, rx.nowS).Denied?
  {
    hide Pass, Passes, After, SlotStays, Refuses, W.TableOk;
    CopyPassesIff(g, rxs, i, j);
    RefusedStays(g, rxs, i, j);
  }

  lemma {:induction false} RefusedStays(g: Gate, rxs: seq<Rx>, i: nat, j: nat)
    requires i < j <= |rxs| && Passes(g, rxs, i) && rxs[i].chat && Refuses(After(g, rxs, i), rxs[i])
    requires forall k :: i < k < j ==> !SamePair(rxs[k], rxs[i])
    ensures !HasRecord(After(g, rxs, j), rxs[i])
    decreases j
  {
    hide Pass, Passes, After, HasRecord, Refuses, SamePair;
    AfterStep(g, rxs, j - 1);
    if j == i + 1 {
      RefusedHasNone(After(g, rxs, i), rxs[i]);
    } else {
      RefusedStays(g, rxs, i, j - 1);
      NoneStays(After(g, rxs, j - 1), rxs[j - 1], rxs[i]);
    }
  }

  // -------------------------------------------------- runs on a trusted clock

  /** From i to j clock readings never run backwards and stay short of the wrap. */
  predicate Forward(rxs: seq<Rx>, i: nat, j: nat)
    requires j < |rxs|
  {
    forall k :: i < k <= j ==> rxs[k - 1].nowS <= rxs[k].nowS && rxs[k].nowS + D.SKEW_S < WRAP
  }

  /** The frame has a record stamped since it was sent, or is too old to be taken again. */
  predicate DatedAt(g: Gate, f: Rx, t: nat) {
    D.HasSince(g.cache, f.src, f.counter, f.sentAt, t) || t > f.sentAt + D.TTL_S
  }

  lemma DatedKept(g: Gate, rx: Rx, f: Rx, t: nat)
    requires DatedAt(g, f, t) && t <= rx.nowS < WRAP
    ensures DatedAt(Next(g, rx), f, rx.nowS)
  {
    hide Pass;
    CacheStep(g, rx);
    if D.HasSince(g.cache, f.src, f.counter, f.sentAt, t) {
      D.StoreStampsKeep(g.cache, rx.src, rx.counter, rx.nowS, f.src, f.counter, f.sentAt, t);
    }
  }

  lemma DatedMade(g: Gate, rx: Rx)
    requires Pass(g, rx).0 && rx.chat && !Refuses(g, rx) && rx.sentAt <= rx.nowS
    ensures DatedAt(Next(g, rx), rx, rx.nowS)
  {
    hide Pass;
    CacheStep(g, rx);
    D.StoreStep(g.cache, rx.src, rx.counter, rx.nowS, rx.src, rx.counter);
    D.StoreStampsNow(g.cache, rx.src, rx.counter, rx.nowS, rx.sentAt);
  }

  lemma {:induction false} DatedLater(g: Gate, rxs: seq<Rx>, i: nat, j: nat)
    requires i < j < |rxs| && Passes(g, rxs, i) && rxs[i].chat && !Refuses(After(g, rxs, i), rxs[i])
    requires Forward(rxs, i, j) && rxs[i].sentAt <= rxs[i].nowS
    ensures DatedAt(After(g, rxs, j), rxs[i], rxs[j - 1].nowS)
    decreases j
  {
    hide Pass, Passes, After, DatedAt, Refuses;
    AfterStep(g, rxs, j - 1);
    if j == i + 1 {
      DatedMade(After(g, rxs, i), rxs[i]);
    } else {
      DatedLater(g, rxs, i, j - 1);
      DatedKept(After(g, rxs, j - 1), rxs[j - 1], rxs[i], rxs[j - 2].nowS);
    }
  }

  /**
   * On a clock that runs forward the record may even be evicted: it is enough
   * that the sender's own slot stays, that the frame's record was not refused,
   * and that the frame was not sent ahead of its first passing.
   */
  lemma AtMostOnceOnTrustedClock(g: Gate, rxs: seq<Rx>, i: nat, j: nat)
    requires W.TableOk(g.window) && i < j < |rxs| && SameFrame(rxs[i], rxs[j])
    requires SlotStays(g, rxs, i, j, rxs[i].src)
    requires rxs[i].chat ==> !Refuses(After(g, rxs, i), rxs[i])
    requires Forward(rxs, i, j) && rxs[i].sentAt <= rxs[i].nowS
    ensures !(Passes(g, rxs, i) && Passes(g, rxs, j))
  {
    hide Pass, Passes, After, SlotStays, Refuses, W.TableOk;
    if Passes(g, rxs, i) {
      CopyPassesIff(g, rxs, i, j);
      if rxs[i].chat { DatedLater(g, rxs, i, j); }
    }
  }

  // ------------------------------------------------ runs that pass one twice

  /** A session DM of sender `src`, on a clock nobody trusts. */
  function Dm(src: nat, ms: nat): Rx { Rx(src, 5, true, 0, ms, 0, false) }

  /** 64 senders, a quarter of an hour of silence, one more sender, and a copy of the first DM. */
  function Crowd(): (r: seq<Rx>)
    ensures |r| == W.SENDERS + 2
  {
    seq(W.SENDERS, i requires 0 <= i => Dm(i, 0)) + [Dm(W.SENDERS, W.MIN_IDLE_MS), Dm(0, W.MIN_IDLE_MS)]
  }

  /** Slots 0 to n-1 hold senders 0 to n-1, last heard at 0. */
  predicate Filled(t: W.Table, n: nat) {
    forall i :: 0 <= i < W.SENDERS ==> (t[i].used <==> i < n) && (i < n ==> t[i].src == i && t[i].lastSeen == 0)
  }

  lemma NewSenderPasses(g: Gate, n: nat)
    requires n < W.SENDERS && Filled(g.window, n)
    ensures Pass(g, Dm(n, 0)).0 && Filled(Next(g, Dm(n, 0)).window, n + 1)
  {
    hide D.MarkSeen;
    assert !g.window[n].used;
    assert W.ScanStop(g.window, n, 0) == n;
  }

  lemma {:induction false} CrowdFills(g: Gate, n: nat)
    requires n <= W.SENDERS && Filled(g.window, 0)
    ensures Filled(After(g, Crowd(), n).window, n)
  {
    hide Pass, Filled;
    if n > 0 {
      CrowdFills(g, n - 1);
      AfterStep(g, Crowd(), n - 1);
      NewSenderPasses(After(g, Crowd(), n - 1), n - 1);
    }
  }

  /** The least recently heard slot is the first of the stalest. */
  lemma {:induction false} FirstStalest(t: W.Table, now: nat, n: nat, k: nat)
    requires k < n <= W.SENDERS
    requires forall i :: 0 <= i < k ==> Age(now, t[i].lastSeen) < Age(now, t[k].lastSeen)
    requires forall i :: k < i < n ==> Age(now, t[i].lastSeen) <= Age(now, t[k].lastSeen)
    ensures W.Lru(t, now, n) == k
  {
    if n > k + 1 {
      FirstStalest(t, now, n - 1, k);
    } else {
      LruBelow(t, now, k, k);
    }
  }

  lemma {:induction false} LruBelow(t: W.Table, now: nat, n: nat, k: nat)
    requires n <= k < W.SENDERS
    ensures n > 0 ==> W.Lru(t, now, n) < k
  {
    if n > 1 { LruBelow(t, now, n - 1, k); }
  }

  lemma NoSlotOf(t: W.Table, src: nat)
    requires forall i :: 0 <= i < W.SENDERS ==> t[i].used && t[i].src != src
    ensures W.ScanStop(t, src, 0) == W.SENDERS
  {
  }

  /** With a full table and slot k the first of the stalest, a new sender takes slot k. */
  lemma TakesOver(t: W.Table, src: nat, k: nat)
    requires k < W.SENDERS && t[k].lastSeen == 0
    requires forall i :: 0 <= i < W.SENDERS ==> t[i].used && t[i].src != src
    requires forall i :: 0 <= i < k ==> t[i].lastSeen == W.MIN_IDLE_MS
    requires forall i :: k < i < W.SENDERS ==> t[i].lastSeen == 0
    ensures W.Recycles(t, src, W.MIN_IDLE_MS)
    ensures W.Check(t, src, 5, W.MIN_IDLE_MS) == (W.Accept, t[k := W.Claimed(src, W.MIN_IDLE_MS).(seen := true, highWater := 5)])
  {
    NoSlotOf(t, src);
    FirstStalest(t, W.MIN_IDLE_MS, W.SENDERS, k);
  }

  /** A crowded table: the new sender takes slot 0, and its owner takes slot 1. */
  lemma CrowdedOut(g: Gate)
    requires Filled(g.window, W.SENDERS)
    ensures var h := Next(g, Dm(W.SENDERS, W.MIN_IDLE_MS)); h.recycled == g.recycled + 1 && Pass(h, Dm(0, W.MIN_IDLE_MS)).0
  {
    hide D.MarkSeen, W.Check, W.Recycles;
    TakesOver(g.window, W.SENDERS, 0);
    TakesOver(W.Check(g.window, W.SENDERS, 5, W.MIN_IDLE_MS).1, 0, 1);
  }

  /** At most once fails when a slot is recycled: with 65 senders, the first
      one's DM passes again after a quarter of an hour. */
  lemma RecycledPassesTwice(g: Gate)
    requires Filled(g.window, 0)
    ensures SameFrame(Crowd()[0], Crowd()[W.SENDERS + 1])
    ensures Passes(g, Crowd(), 0) && Passes(g, Crowd(), W.SENDERS + 1)
  {
    hide Pass, Filled, Passes, After;
    AfterStep(g, Crowd(), 0);
    CrowdFills(g, 0);
    AfterZero(g, Crowd());
    NewSenderPasses(g, 0);
    CrowdFills(g, W.SENDERS);
    AfterStep(g, Crowd(), W.SENDERS);
    AfterStep(g, Crowd(), W.SENDERS + 1);
    CrowdedOut(After(g, Crowd(), W.SENDERS));
  }

  lemma AfterZero(g: Gate, rxs: seq<Rx>)
    ensures After(g, rxs, 0) == g
  {
  }

  /** Counters of one sender: 0, then 100, 101, ... */
  function Counter(i: nat): nat { if i == 0 then 0 else 99 + i }

  /** A channel message of sender 1; the first was sent 300 s ahead of the clock. */
  function Message(i: nat): Rx { Rx(1, Counter(i), true, if i == 0 then 1300 else 1000, 0, 1000, true) }

  const NEXT_DAY: nat := 1000 + D.TTL_S + 1

  /** 128 messages at 1000 s. */
  function Messages(): (r: seq<Rx>)
    ensures |r| == D.RECORDS
  {
    seq(D.RECORDS, i requires 0 <= i => Message(i))
  }

  /** ... one a day and a second later, and a copy of the first. */
  function Early(): (r: seq<Rx>)
    ensures |r| == D.RECORDS + 2
  {
    Messages() + [Rx(1, Counter(D.RECORDS), true, NEXT_DAY, 0, NEXT_DAY, true), Message(0).(nowS := NEXT_DAY)]
  }

  /** The first n messages are recorded, in order, and the window stands at the last. */
  predicate Logged(g: Gate, n: nat) {
    && (forall i :: 0 <= i < D.RECORDS ==> g.cache[i].used == (i < n))
    && (forall i :: 0 <= i < n <= D.RECORDS ==> g.cache[i] == D.Record(true, 1, Counter(i), 1000))
    && (n > 0 ==> g.window[0].used && g.window[0].src == 1 && g.window[0].seen && g.window[0].highWater == Counter(n - 1))
    && (n == 0 ==> !g.window[0].used)
  }

  /** A counter above the window of the sender in slot 0. */
  lemma HigherAccepted(t: W.Table, c: nat)
    requires t[0].used ==> t[0].src == 1 && t[0].seen && t[0].highWater < c
    ensures var r := W.Check(t, 1, c, 0);
      r.0 == W.Accept && r.1[0].used && r.1[0].src == 1 && r.1[0].seen && r.1[0].highWater == c
  {
    assert W.ScanStop(t, 1, 0) == 0;
  }

  lemma MessageLogged(g: Gate, n: nat)
    requires n < D.RECORDS && Logged(g, n)
    ensures Pass(g, Message(n)).0 && Logged(Next(g, Message(n)), n + 1)
  {
    hide W.Check;
    HigherAccepted(g.window, Counter(n));
    assert D.IndexOf(g.cache, 1, Counter(n), 0) == D.RECORDS;
    assert !g.cache[n].used;
    assert D.FirstFree(g.cache, 0) == n;
  }

  lemma {:induction false} MessagesLogged(g: Gate, more: seq<Rx>, n: nat)
    requires n <= D.RECORDS && Logged(g, 0)
    ensures Logged(After(g, Messages() + more, n), n)
  {
    hide Pass, Logged;
    if n > 0 {
      MessagesLogged(g, more, n - 1);
      AfterStep(g, Messages() + more, n - 1);
      MessageLogged(After(g, Messages() + more, n - 1), n - 1);
    }
  }

  /** The oldest record is the first of the oldest. */
  lemma {:induction false} FirstOldest(d: D.Cache, now: nat, n: nat, k: nat)
    requires k < n <= D.RECORDS
    requires forall i :: 0 <= i < k ==> Age(now, d[i].seenAt) < Age(now, d[k].seenAt)
    requires forall i :: k < i < n ==> Age(now, d[i].seenAt) <= Age(now, d[k].seenAt)
    ensures D.Oldest(d, now, n) == k
  {
    if n > k + 1 {
      FirstOldest(d, now, n - 1, k);
    } else {
      OldestBelow(d, now, k, k);
    }
  }

  lemma {:induction false} OldestBelow(d: D.Cache, now: nat, n: nat, k: nat)
    requires n <= k < D.RECORDS
    ensures n > 0 ==> D.Oldest(d, now, n) < k
  {
    if n > 1 { OldestBelow(d, now, n - 1, k); }
  }

  lemma FullCache(d: D.Cache)
    requires forall i :: 0 <= i < D.RECORDS ==> d[i].used
    ensures D.FirstFree(d, 0) == D.RECORDS
  {
  }

  lemma Unrecorded(d: D.Cache, c: nat)
    requires forall i :: 0 <= i < D.RECORDS ==> d[i].counter != c
    ensures D.IndexOf(d, 1, c, 0) == D.RECORDS
  {
  }

  /** The full cache gives up its oldest record, the first message's. */
  lemma FirstEvicted(d: D.Cache)
    requires forall i :: 0 <= i < D.RECORDS ==> d[i] == D.Record(true, 1, Counter(i), 1000)
    ensures var o := D.MarkSeen(d, 1, Counter(D.RECORDS), NEXT_DAY);
      o.find == D.Found(0, true) && o.cache == d[0 := D.Record(true, 1, Counter(D.RECORDS), NEXT_DAY)]
  {
    Unrecorded(d, Counter(D.RECORDS));
    FullCache(d);
    FirstOldest(d, NEXT_DAY, D.RECORDS, 0);
  }

  /** With its record gone and its send time still fresh, tier two takes the first message again. */
  lemma FirstTakenAgain(d: D.Cache)
    requires forall i :: 0 < i < D.RECORDS ==> d[i] == D.Record(true, 1, Counter(i), 1000)
    requires d[0] == D.Record(true, 1, Counter(D.RECORDS), NEXT_DAY)
    ensures D.TryAccept(d, 1, 0, 1300, NEXT_DAY, true).accepted
  {
    Unrecorded(d, 0);
    FullCache(d);
    FirstOldest(d, NEXT_DAY, D.RECORDS, 1);
  }

  lemma EvictedPasses(g: Gate)
    requires Logged(g, D.RECORDS)
    ensures var h := Next(g, Early()[D.RECORDS]); h.evicted == g.evicted + 1 && Pass(h, Early()[D.RECORDS + 1]).0
  {
    hide D.MarkSeen, D.TryAccept;
    var c := Counter(D.RECORDS);
    HigherAccepted(g.window, c);
    FirstEvicted(g.cache);
    var h := Next(g, Early()[D.RECORDS]);
    assert W.ScanStop(h.window, 1, 0) == 0;
    FirstTakenAgain(h.cache);
  }

  /** At most once fails when a record is evicted ahead of its message's send
      time: a message dated five minutes ahead passes again a day later. */
  lemma EvictedPassesTwice(g: Gate)
    requires Logged(g, 0)
    ensures SameFrame(Early()[0], Early()[D.RECORDS + 1])
    ensures Passes(g, Early(), 0) && Passes(g, Early(), D.RECORDS + 1)
  {
    hide Pass, Logged, Passes, After;
    AfterStep(g, Early(), 0);
    AfterZero(g, Early());
    MessageLogged(g, 0);
    MessagesLogged(g, Early()[D.RECORDS..], D.RECORDS);
    assert Messages() + Early()[D.RECORDS..] == Early();
    AfterStep(g, Early(), D.RECORDS);
    AfterStep(g, Early(), D.RECORDS + 1);
    EvictedPasses(After(g, Early(), D.RECORDS));
  }

  const LATER: nat := 2000

  /** ... two more messages at 2000 s, and at the end of the day a copy of the first of the two. */
  function Refused(): (r: seq<Rx>)
    ensures |r| == D.RECORDS + 3
  {
    Messages() + [Rx(1, 227, true, LATER, 0, LATER, true), Rx(1, 400, true, LATER, 0, LATER, true), Rx(1, 227, true, LATER, 0, NEXT_DAY, true)]
  }

  /** The full cache with its records a thousand seconds old takes no record. */
  lemma FullRefuses(d: D.Cache, c: nat)
    requires forall i :: 0 <= i < D.RECORDS ==> d[i] == D.Record(true, 1, Counter(i), 1000)
    requires forall i :: 0 <= i < D.RECORDS ==> Counter(i) != c
    ensures var o := D.MarkSeen(d, 1, c, LATER); o.find == D.Denied && o.cache == d
  {
    Unrecorded(d, c);
    FullCache(d);
    FirstOldest(d, LATER, D.RECORDS, 0);
  }

  /** At the end of the day the oldest record may go, and tier two takes the copy. */
  lemma RefusedTakenAgain(d: D.Cache)
    requires forall i :: 0 <= i < D.RECORDS ==> d[i] == D.Record(true, 1, Counter(i), 1000)
    ensures D.TryAccept(d, 1, 227, LATER, NEXT_DAY, true).accepted
  {
    Unrecorded(d, 227);
    FullCache(d);
    FirstOldest(d, NEXT_DAY, D.RECORDS, 0);
  }

  lemma RefusedPasses(g: Gate)
    requires Logged(g, D.RECORDS)
    ensures var h1 := Next(g, Refused()[D.RECORDS]);
      var h2 := Next(h1, Refused()[D.RECORDS + 1]);
      && Pass(g, Refused()[D.RECORDS]).0 && Refuses(g, Refused()[D.RECORDS])
      && h2.recycled == g.recycled && h2.evicted == g.evicted && Pass(h2, Refused()[D.RECORDS + 2]).0
  {
    hide D.MarkSeen, D.TryAccept, W.Check;
    HigherAccepted(g.window, 227);
    FullRefuses(g.cache, 227);
    OwnSlotFirst(g.window);
    var h1 := Next(g, Refused()[D.RECORDS]);
    HigherAccepted(h1.window, 400);
    FullRefuses(h1.cache, 400);
    OwnSlotFirst(h1.window);
    var h2 := Next(h1, Refused()[D.RECORDS + 1]);
    RefusedTakenAgain(h2.cache);
    FarBelow(h2.window);
  }

  lemma OwnSlotFirst(t: W.Table)
    requires t[0].used && t[0].src == 1
    ensures !W.Recycles(t, 1, 0)
  {
    assert W.ScanStop(t, 1, 0) == 0;
  }

  lemma FarBelow(t: W.Table)
    requires t[0].used && t[0].src == 1 && t[0].seen && t[0].highWater == 400
    ensures W.Check(t, 1, 227, 0).0 == W.BelowWindow
  {
    assert W.ScanStop(t, 1, 0) == 0;
  }

  /** At most once fails when a record is refused: with 128 messages in a day, an
      honestly dated 129th passes again at the end of it, with no slot recycled
      and no record evicted before. */
  lemma RefusedPassesTwice(g: Gate)
    requires Logged(g, 0)
    ensures SameFrame(Refused()[D.RECORDS], Refused()[D.RECORDS + 2])
    ensures Passes(g, Refused(), D.RECORDS) && Passes(g, Refused(), D.RECORDS + 2)
  {
    hide Pass, Logged, Passes, After, Refuses;
    MessagesLogged(g, Refused()[D.RECORDS..], D.RECORDS);
    assert Messages() + Refused()[D.RECORDS..] == Refused();
    AfterStep(g, Refused(), D.RECORDS);
    AfterStep(g, Refused(), D.RECORDS + 1);
    AfterStep(g, Refused(), D.RECORDS + 2);
    RefusedPasses(After(g, Refused(), D.RECORDS));
  }
}
