/**
 * The delivery-receipt queue (main/mesh_reliability.c, with the slot and scale
 * policy of main/broadcast_delivery_receipt.c): receipts wait in eight slots
 * and are sent up to three times, each attempt put off while the channel is
 * busy, spent on the air, or denied by the airtime budget.
 */
module Receipts {
  import opened Basics
  import opened Bits

  const SLOTS: nat := 8
  const ATTEMPTS: nat := 3
  const MAX_DEFERS: nat := 8
  const BUDGET_MS: nat := 12_000

  datatype Rc = Ok | Radio | Budget | Busy

  /** pending_receipt_t. */
  datatype Item = Item(used: bool, pkt: nat, bytes: seq<bv8>, total: nat, sent: nat, defers: nat, due: nat)

  function Blank(): Item { Item(false, 0, [], 0, 0, 0, 0) }

  /** What one pass learns from outside: the gate's verdict, the clock before
      and after it, a random draw, the airtime left, the neighbor count. */
  datatype Tx = Tx(rc: Rc, t: nat, after: nat, rnd: nat, remaining: nat, peers: nat)

  // ----------------------------------------------------------- the timings

  function Buckets(peers: nat): (r: nat)
    ensures 4 <= r <= 32 && r % 2 == 0
  {
    if 2 * peers < 4 then 4 else if 2 * peers > 32 then 32 else 2 * peers
  }

  /** mesh_broadcast_receipt_slot_delay_ms. */
  function SlotDelay(addr: nat, pkt: nat, peers: nat): (r: nat)
    ensures 300 <= r <= 31_300
  {
    300 + (Xor(addr, pkt) % Buckets(peers)) * 1000
  }

  /** mesh_broadcast_receipt_retry_scale: half, one, or double. */
  function Scale(remaining: nat): (r: (nat, nat))
    ensures r == if remaining > 8400 then (1, 2) else if remaining <= 3480 then (2, 1) else (1, 1)
  {
    var left := if remaining > BUDGET_MS then BUDGET_MS else remaining;
    var pct := ((BUDGET_MS - left) * 100) / BUDGET_MS;
    if pct < 30 then (1, 2) else if pct > 70 then (2, 1) else (1, 1)
  }

  function Scaled(ms: nat, remaining: nat): (r: nat)
    ensures ms / 2 <= r <= 2 * ms
  {
    var (num, den) := Scale(remaining);
    (ms * num) / den
  }

  function DeferDelay(tx: Tx): nat { 250 + tx.rnd % 750 }

  function BackoffDelay(sent: nat, tx: Tx): nat { Scaled(1000 + sent * 2000 + tx.rnd % 1000, tx.remaining) }

  /** The packet id the retry's slot is drawn from. */
  function Salted(pkt: nat, sent: nat): nat { Xor(pkt, sent * 0x1000_0000) }

  function RetryDelay(addr: nat, pkt: nat, sent: nat, tx: Tx): (r: nat)
    ensures 0 < r
  {
    var d := Scaled(SlotDelay(addr, Salted(pkt, sent), tx.peers) + tx.rnd % 400, tx.remaining);
    if d == 0 then 1 else d
  }

  // ---------------------------------------------------------- one receipt

  /** The delay one pass schedules for the receipt it sends, 0 if it is done with it. */
  function Delay(addr: nat, it: Item, tx: Tx): nat {
    if tx.rc == Busy && it.defers + 1 < MAX_DEFERS then DeferDelay(tx)
    else if it.sent + 1 >= it.total then 0
    else if tx.rc == Budget || tx.rc == Busy then BackoffDelay(it.sent + 1, tx)
    else RetryDelay(addr, it.pkt, it.sent + 1, tx)
  }

  /** mesh_process_receipt_tx_event, on the slot it picked. */
  function Process(addr: nat, it: Item, tx: Tx): Item {
    var d := Delay(addr, it, tx);
    if tx.rc == Busy && it.defers + 1 < MAX_DEFERS then it.(defers := it.defers + 1, due := (tx.after + d) % WRAP)
    else if it.sent + 1 >= it.total then Blank()
    else it.(sent := it.sent + 1, defers := 0, due := ((if tx.rc == Budget then tx.t else tx.after) + d) % WRAP)
  }

  /** A receipt as queued. */
  function Queued(pkt: nat, bytes: seq<bv8>, due: nat): Item { Item(true, pkt, bytes, ATTEMPTS, 0, 0, due) }

  predicate ItemOk(it: Item) { it.used ==> it.total == ATTEMPTS && it.sent < ATTEMPTS && it.defers < MAX_DEFERS }

  /** Passes left, attempts left, and the most delay still to be scheduled. */
  function Passes(it: Item): nat
    requires ItemOk(it)
  {
    if it.used then (ATTEMPTS - it.sent) * MAX_DEFERS - it.defers else 0
  }

  function Attempts(it: Item): nat
    requires ItemOk(it)
  {
    if it.used then ATTEMPTS - it.sent else 0
  }

  function Horizon(it: Item): nat
    requires ItemOk(it)
  {
    if it.used then (7 - it.defers) * 999 + (ATTEMPTS - 1 - it.sent) * (63_398 + 7 * 999) else 0
  }

  /** Every pass uses up at least one of the passes left, every transmission one
      of the attempts left, and every delay its share of the time left; the
      bytes sent are the bytes queued. */
  lemma ProcessUsesUp(addr: nat, it: Item, tx: Tx)
    requires it.used && ItemOk(it)
    ensures var it' := Process(addr, it, tx);
      && ItemOk(it')
      && Passes(it') + 1 <= Passes(it)
      && Attempts(it') + (if tx.rc == Ok then 1 else 0) <= Attempts(it)
      && Delay(addr, it, tx) + Horizon(it') <= Horizon(it)
      && (it'.used ==> it'.bytes == it.bytes && it'.pkt == it.pkt)
  {
    var left := ATTEMPTS - it.sent;
    assert left == 1 || left == 2 || left == 3;
  }

  // ------------------------------------------------- a receipt from queue to end

  /** Passes made over the receipt until its slot is freed. */
  function Calls(addr: nat, it: Item, txs: seq<Tx>): nat
    decreases |txs|
  {
    if !it.used || txs == [] then 0 else 1 + Calls(addr, Process(addr, it, txs[0]), txs[1..])
  }

  function OnAir(addr: nat, it: Item, txs: seq<Tx>): nat
    decreases |txs|
  {
    if !it.used || txs == [] then 0
    else (if txs[0].rc == Ok then 1 else 0) + OnAir(addr, Process(addr, it, txs[0]), txs[1..])
  }

  function DelaySum(addr: nat, it: Item, txs: seq<Tx>): nat
    decreases |txs|
  {
    if !it.used || txs == [] then 0
    else Delay(addr, it, txs[0]) + DelaySum(addr, Process(addr, it, txs[0]), txs[1..])
  }

  lemma {:induction false} RunUsesUp(addr: nat, it: Item, txs: seq<Tx>)
    requires ItemOk(it)
    ensures Calls(addr, it, txs) <= Passes(it)
    ensures OnAir(addr, it, txs) <= Attempts(it)
    ensures DelaySum(addr, it, txs) <= Horizon(it)
    decreases |txs|
  {
    hide Process, Delay, Passes, Attempts, Horizon;
    if it.used && txs != [] {
      ProcessUsesUp(addr, it, txs[0]);
      RunUsesUp(addr, Process(addr, it, txs[0]), txs[1..]);
    }
  }

  /** Delay before the first attempt. */
  function InitialDelay(addr: nat, pkt: nat, peers: nat, rnd: nat): nat { SlotDelay(addr, pkt, peers) + rnd % 400 }

  /** Whatever the gate answers, the clock, the dice and the mesh do, a receipt
      is passed over at most 24 times, sent at most 3 times, and the delays
      scheduled for it sum to at most 179,474 ms. */
  lemma ReceiptBound(addr: nat, pkt: nat, bytes: seq<bv8>, peers: nat, rnd: nat, due: nat, txs: seq<Tx>)
    ensures var it := Queued(pkt, bytes, due);
      && Calls(addr, it, txs) <= 24
      && OnAir(addr, it, txs) <= 3
      && InitialDelay(addr, pkt, peers, rnd) + DelaySum(addr, it, txs) <= 179_474
  {
    RunUsesUp(addr, Queued(pkt, bytes, due), txs);
  }

  /** A pass that finds the receipt in its slot frees it within 24 passes. */
  lemma ReceiptEnds(addr: nat, it: Item, txs: seq<Tx>)
    requires ItemOk(it) && it.used && |txs| >= Passes(it)
    ensures exists k :: 0 < k <= |txs| && !Play(addr, it, txs[..k]).used
  {
    hide Process, Passes;
    PlayedOut(addr, it, txs);
    assert txs[..|txs|] == txs;
    PassesPositive(it);
  }

  lemma PassesPositive(it: Item)
    requires ItemOk(it) && it.used
    ensures Passes(it) > 0
  {
    assert ATTEMPTS - it.sent >= 1;
  }

  function Play(addr: nat, it: Item, txs: seq<Tx>): Item
    decreases |txs|
  {
    if !it.used || txs == [] then it else Play(addr, Process(addr, it, txs[0]), txs[1..])
  }

  lemma {:induction false} PlayedOut(addr: nat, it: Item, txs: seq<Tx>)
    requires ItemOk(it) && |txs| >= Passes(it)
    ensures !Play(addr, it, txs).used
    decreases |txs|
  {
    hide Process;
    if it.used {
      ProcessUsesUp(addr, it, txs[0]);
      PlayedOut(addr, Process(addr, it, txs[0]), txs[1..]);
    }
  }

  // ------------------------------------------------------ the bound is reached

  lemma {:induction false} SumSplits(addr: nat, it: Item, a: seq<Tx>, b: seq<Tx>)
    ensures DelaySum(addr, it, a + b) == DelaySum(addr, it, a) + DelaySum(addr, Play(addr, it, a), b)
    decreases |a|
  {
    hide Process, Delay;
    if a == [] {
      assert a + b == b;
    } else if it.used {
      assert (a + b)[0] == a[0] && (a + b)[1..] == a[1..] + b;
      SumSplits(addr, Process(addr, it, a[0]), a[1..], b);
    }
  }

  /** n busy verdicts, each with the longest deferral. */
  function Jam(n: nat): seq<Tx> { if n == 0 then [] else [Tx(Busy, 0, 0, 749, 0, 16)] + Jam(n - 1) }

  lemma {:induction false} JamSum(addr: nat, it: Item, n: nat)
    requires it.used && ItemOk(it) && it.defers + n < MAX_DEFERS
    ensures DelaySum(addr, it, Jam(n)) == n * 999
    ensures var e := Play(addr, it, Jam(n)); e == it.(defers := it.defers + n, due := e.due)
    decreases n
  {
    if n > 0 {
      var tx := Tx(Busy, 0, 0, 749, 0, 16);
      var it' := Process(addr, it, tx);
      assert it' == it.(defers := it.defers + 1, due := it'.due) && Delay(addr, it, tx) == 999;
      assert Jam(n)[0] == tx && Jam(n)[1..] == Jam(n - 1);
      JamSum(addr, it', n - 1);
    }
  }

  /** The longest retry: last of 32 slots, full jitter, delays doubled. */
  function LastSlot(): Tx { Tx(Ok, 0, 0, 399, 0, 16) }

  lemma SaltedSlotZero(sent: nat)
    requires 1 <= sent <= 2
    ensures SlotDelay(31, Salted(0, sent), 16) == 31_300
  {
    SaltKeepsSlot(31, 0, sent, 16);
    assert Xor(31, 0) == 31;
  }

  lemma RetrySum(it: Item)
    requires it.used && ItemOk(it) && it.sent < 2 && it.pkt == 0
    ensures DelaySum(31, it, [LastSlot()]) == 63_398
    ensures var e := Play(31, it, [LastSlot()]); e == it.(sent := it.sent + 1, defers := 0, due := e.due)
  {
    SaltedSlotZero(it.sent + 1);
    var it' := Process(31, it, LastSlot());
    assert DelaySum(31, it', [LastSlot()][1..]) == 0;
    assert Play(31, it', [LastSlot()][1..]) == it';
    assert Scale(0) == (2, 1);
    assert Delay(31, it, LastSlot()) == 63_398;
  }

  /** One attempt at its slowest, and the rest. */
  lemma AttemptSum(it: Item, rest: seq<Tx>) returns (after: Item)
    requires it.used && ItemOk(it) && it.sent < 2 && it.pkt == 0 && it.defers == 0
    ensures after == it.(sent := it.sent + 1, due := after.due)
    ensures DelaySum(31, it, Jam(7) + ([LastSlot()] + rest)) == 6_993 + 63_398 + DelaySum(31, after, rest)
  {
    hide Process, Delay, DelaySum, Play;
    JamSum(31, it, 7);
    var jammed := Play(31, it, Jam(7));
    RetrySum(jammed);
    after := Play(31, jammed, [LastSlot()]);
    SumSplits(31, it, Jam(7), [LastSlot()] + rest);
    SumSplits(31, jammed, [LastSlot()], rest);
  }

  /** 179,474 ms is reached: every attempt deferred seven times to the full, and every retry in the last slot. */
  lemma BoundIsTight(bytes: seq<bv8>)
    ensures exists txs ::
      InitialDelay(31, 0, 16, 399) + DelaySum(31, Queued(0, bytes, 0), txs) == 179_474
  {
    hide DelaySum, SlotDelay;
    var last := Jam(7);
    var second := Jam(7) + ([LastSlot()] + last);
    var first := Jam(7) + ([LastSlot()] + second);
    var it1 := AttemptSum(Queued(0, bytes, 0), second);
    var it2 := AttemptSum(it1, last);
    JamSum(31, it2, 7);
    FirstSlotDelay();
    assert InitialDelay(31, 0, 16, 399) + DelaySum(31, Queued(0, bytes, 0), first) == 179_474;
  }

  lemma FirstSlotDelay()
    ensures SlotDelay(31, 0, 16) == 31_300
  {
    assert Xor(31, 0) == 31;
  }

  // -------------------------------------------------------------- the salt

  /** The retry's salt sits in bits 28 and up, so it leaves the slot as it was
      whenever the number of slots is 4, 8, 16 or 32. */
  lemma SaltKeepsSlot(addr: nat, pkt: nat, sent: nat, peers: nat)
    requires Buckets(peers) in {4, 8, 16, 32}
    ensures SlotDelay(addr, Salted(pkt, sent), peers) == SlotDelay(addr, pkt, peers)
  {
    var n := if Buckets(peers) == 4 then 2 else if Buckets(peers) == 8 then 3 else if Buckets(peers) == 16 then 4 else 5;
    SaltIsHigh(sent, n);
    XorKeepsLow(pkt, sent * 0x1000_0000, n);
    XorLowBits(addr, Salted(pkt, sent), pkt, n);
    LowIsSlot(Xor(addr, pkt), n);
    LowIsSlot(Xor(addr, Salted(pkt, sent)), n);
  }

  lemma SaltIsHigh(sent: nat, n: nat)
    requires 2 <= n <= 5
    ensures LowBits(sent * 0x1000_0000, n) == 0
  {
    var y := sent * 0x80_0000;
    DoubledIs(y);
    assert sent * 0x1000_0000 == 32 * y;
    DoubledIsClear(y, 5, n);
  }

  function Doubled(y: nat, k: nat): nat { if k == 0 then y else 2 * Doubled(y, k - 1) }

  lemma DoubledIs(y: nat)
    ensures Doubled(y, 5) == 32 * y
  {
    assert Doubled(y, 1) == 2 * y;
    assert Doubled(y, 2) == 4 * y;
    assert Doubled(y, 3) == 8 * y;
    assert Doubled(y, 4) == 16 * y;
  }

  lemma {:induction false} DoubledIsClear(y: nat, k: nat, n: nat)
    requires n <= k
    ensures LowBits(Doubled(y, k), n) == 0
  {
    if n > 0 { DoubledIsClear(y, k - 1, n - 1); }
  }

  lemma LowIsSlot(x: nat, n: nat)
    requires 2 <= n <= 5
    ensures LowBits(x, n) == x % (if n == 2 then 4 else if n == 3 then 8 else if n == 4 then 16 else 32)
  {
    hide LowBits;
    if n == 2 { Low4(x); } else if n == 3 { Low8(x); } else if n == 4 { Low16(x); } else { Low32(x); }
  }

  /** The salt moves the hash up or down by 2^28 or 2^29. */
  lemma SaltShifts(addr: nat, pkt: nat, sent: nat)
    requires 1 <= sent <= 2
    ensures var h, h' := Xor(addr, pkt), Xor(addr, Salted(pkt, sent));
      h' == h + sent * 0x1000_0000 || h' == h - sent * 0x1000_0000
  {
    XorAssociates(addr, pkt, sent * 0x1000_0000);
    Pow2Values();
    XorFlips(Xor(addr, pkt), 27 + sent);
  }

  /** No other number of slots divides the shift, so the remainder changes. */
  lemma ShiftMoves(h: nat, b: nat, sent: nat)
    requires 1 <= sent <= 2 && 4 <= b <= 32 && b % 2 == 0 && b !in {4, 8, 16, 32}
    ensures (h + sent * 0x1000_0000) % b != h % b
  {
    if b == 6 || b == 10 || b == 12 || b == 14 {
      if b == 6 {} else if b == 10 {} else if b == 12 {} else {}
    } else if b == 18 || b == 20 || b == 22 || b == 24 {
      if b == 18 {} else if b == 20 {} else if b == 22 {} else {}
    } else {
      if b == 26 {} else if b == 28 {} else { assert b == 30; }
    }
  }

  /** A retry draws another slot than the first attempt exactly when the number
      of slots is not a power of two. */
  lemma RetryMovesIff(addr: nat, pkt: nat, sent: nat, peers: nat)
    requires 1 <= sent <= 2
    ensures SlotDelay(addr, Salted(pkt, sent), peers) != SlotDelay(addr, pkt, peers) <==> Buckets(peers) !in {4, 8, 16, 32}
  {
    var b := Buckets(peers);
    if b in {4, 8, 16, 32} {
      SaltKeepsSlot(addr, pkt, sent, peers);
    } else {
      SaltShifts(addr, pkt, sent);
      var h, h' := Xor(addr, pkt), Xor(addr, Salted(pkt, sent));
      ShiftMoves(if h < h' then h else h', b, sent);
    }
  }

  lemma InWindow(addr: nat, pkt: nat, peers: nat)
    ensures SlotDelay(addr, pkt, peers) < 300 + 1000 * Buckets(peers)
  {
    hide Xor, Buckets;
    assert Xor(addr, pkt) % Buckets(peers) < Buckets(peers);
  }

  /** The spread is whole: whatever the packet, every slot of the window is
      some node's, and no node answers outside it. */
  lemma SlotsCovered(pkt: nat, peers: nat, k: nat)
    requires k < Buckets(peers)
    ensures SlotDelay(Xor(k, pkt), pkt, peers) == 300 + 1000 * k
    ensures forall addr :: SlotDelay(addr, pkt, peers) < 300 + 1000 * Buckets(peers)
  {
    hide Xor, Buckets;
    XorBack(k, pkt);
    Small(k, Buckets(peers));
    assert SlotDelay(Xor(k, pkt), pkt, peers) == 300 + 1000 * k;
    hide SlotDelay;
    forall addr ensures SlotDelay(addr, pkt, peers) < 300 + 1000 * Buckets(peers) { InWindow(addr, pkt, peers); }
  }

  lemma Small(k: nat, b: nat)
    requires k < b
    ensures k % b == k
  {
  }

  // --------------------------------------------------------------- the queue

  /** First used slot whose due time has come, or |q|. */
  function FirstDue(q: seq<Item>, t: nat, i: nat): (r: nat)
    requires i <= |q|
    ensures i <= r <= |q| && (r < |q| ==> q[r].used && q[r].due <= t)
    ensures forall k :: i <= k < r ==> !(q[k].used && q[k].due <= t)
    decreases |q| - i
  {
    if i == |q| || (q[i].used && q[i].due <= t) then i else FirstDue(q, t, i + 1)
  }

  function FirstFree(q: seq<Item>, i: nat): (r: nat)
    requires i <= |q|
    ensures i <= r <= |q| && (r < |q| ==> !q[r].used)
    ensures forall k :: i <= k < r ==> q[k].used
    decreases |q| - i
  {
    if i == |q| || !q[i].used then i else FirstFree(q, i + 1)
  }

  /** A receipt asked for, or the timer going off. */
  datatype Event = Ask(pkt: nat, bytes: seq<bv8>, peers: nat, rnd: nat, now: nat) | Timer(tx: Tx)

  /** The queue with what it has cost so far: receipts taken, passes, sends and
      milliseconds of scheduled delay. */
  datatype Tally = Tally(q: seq<Item>, taken: nat, calls: nat, sends: nat, delay: nat)

  function Do(addr: nat, s: Tally, e: Event): Tally
  {
    match e
    case Ask(pkt, bytes, peers, rnd, now) =>
      var i := FirstFree(s.q, 0);
      if i == |s.q| then s
      else
        var d := InitialDelay(addr, pkt, peers, rnd);
        s.(q := s.q[i := Queued(pkt, bytes, (now + d) % WRAP)], taken := s.taken + 1, delay := s.delay + d)
    case Timer(tx) =>
      var i := FirstDue(s.q, tx.t, 0);
      if i == |s.q| then s
      else s.(q := s.q[i := Process(addr, s.q[i], tx)], calls := s.calls + 1,
              sends := s.sends + (if tx.rc == Ok then 1 else 0), delay := s.delay + Delay(addr, s.q[i], tx))
  }

  predicate AllOk(q: seq<Item>) { forall i :: 0 <= i < |q| ==> ItemOk(q[i]) }

  /** What the slots in use may still cost. */
  function SumPasses(q: seq<Item>): nat requires AllOk(q) { if q == [] then 0 else Passes(q[0]) + SumPasses(q[1..]) }

  function SumAttempts(q: seq<Item>): nat requires AllOk(q) { if q == [] then 0 else Attempts(q[0]) + SumAttempts(q[1..]) }

  function SumHorizon(q: seq<Item>): nat requires AllOk(q) { if q == [] then 0 else Horizon(q[0]) + SumHorizon(q[1..]) }

  lemma {:induction false} SumUpdate(q: seq<Item>, i: nat, it: Item)
    requires AllOk(q) && i < |q| && ItemOk(it)
    ensures AllOk(q[i := it])
    ensures SumPasses(q[i := it]) == SumPasses(q) - Passes(q[i]) + Passes(it)
    ensures SumAttempts(q[i := it]) == SumAttempts(q) - Attempts(q[i]) + Attempts(it)
    ensures SumHorizon(q[i := it]) == SumHorizon(q) - Horizon(q[i]) + Horizon(it)
    decreases |q|
  {
    hide Passes, Attempts, Horizon, ItemOk;
    var q' := q[i := it];
    if i == 0 {
      assert q'[1..] == q[1..];
    } else {
      assert q'[1..] == q[1..][i - 1 := it];
      SumUpdate(q[1..], i - 1, it);
    }
  }

  /** Cost so far and cost still possible are covered by the receipts taken. */
  predicate Covered(s: Tally) {
    && AllOk(s.q)
    && s.calls + SumPasses(s.q) <= 24 * s.taken
    && s.sends + SumAttempts(s.q) <= 3 * s.taken
    && s.delay + SumHorizon(s.q) <= 179_474 * s.taken
  }

  lemma QueuedCosts(pkt: nat, bytes: seq<bv8>, due: nat, free: Item)
    requires !free.used
    ensures var it := Queued(pkt, bytes, due);
      && ItemOk(it) && Passes(it) == 24 && Attempts(it) == 3 && Horizon(it) == 147_775
      && ItemOk(free) && Passes(free) == 0 && Attempts(free) == 0 && Horizon(free) == 0
  {
  }

  lemma StepCovered(addr: nat, s: Tally, e: Event)
    requires Covered(s)
    ensures Covered(Do(addr, s, e)) && |Do(addr, s, e).q| == |s.q|
  {
    match e
    case Ask(pkt, bytes, peers, rnd, now) =>
      var i := FirstFree(s.q, 0);
      if i < |s.q| {
        var it := Queued(pkt, bytes, (now + InitialDelay(addr, pkt, peers, rnd)) % WRAP);
        QueuedCosts(pkt, bytes, it.due, s.q[i]);
        assert InitialDelay(addr, pkt, peers, rnd) <= 31_699;
        hide Passes, Attempts, Horizon, ItemOk;
        SumUpdate(s.q, i, it);
      }
    case Timer(tx) =>
      var i := FirstDue(s.q, tx.t, 0);
      if i < |s.q| {
        hide Passes, Attempts, Horizon, Process, Delay, ItemOk;
        ProcessUsesUp(addr, s.q[i], tx);
        SumUpdate(s.q, i, Process(addr, s.q[i], tx));
      }
  }

  function Run(addr: nat, s: Tally, es: seq<Event>): Tally
    decreases |es|
  {
    if es == [] then s else Do(addr, Run(addr, s, es[..|es| - 1]), es[|es| - 1])
  }

  function Empty(): Tally { Tally(seq(SLOTS, i => Blank()), 0, 0, 0, 0) }

  lemma {:induction false} EmptySums(n: nat)
    ensures var q := seq(n, i => Blank()); AllOk(q) && SumPasses(q) == 0 && SumAttempts(q) == 0 && SumHorizon(q) == 0
  {
    if n > 0 {
      EmptySums(n - 1);
      assert seq(n, i => Blank())[1..] == seq(n - 1, i => Blank());
    }
  }

  /** Over every run of requests and timer events, the whole queue together
      makes at most 24 transmit calls, 3 transmissions and 179,474 ms of
      scheduled delay per receipt it took. */
  lemma {:induction false} CoveredEveryRun(addr: nat, es: seq<Event>)
    ensures var s := Run(addr, Empty(), es);
      && Covered(s) && |s.q| == SLOTS
      && s.calls <= 24 * s.taken && s.sends <= 3 * s.taken && s.delay <= 179_474 * s.taken
    decreases |es|
  {
    hide Do;
    EmptySums(SLOTS);
    if es != [] {
      CoveredEveryRun(addr, es[..|es| - 1]);
      StepCovered(addr, Run(addr, Empty(), es[..|es| - 1]), es[|es| - 1]);
    }
  }

  // -------------------------------------------------- the moments of the passes

  /** The clock goes forward through the pass, and no delay counted from it reaches the wrap. */
  predicate Forward(tx: Tx) { tx.t <= tx.after && tx.after + 63_398 < WRAP }

  /** The passes one receipt gets from the events, until its slot is free. */
  function PassesOver(addr: nat, s: Tally, i: nat, es: seq<Event>): seq<Tx>
    requires i < |s.q|
    decreases |es|
  {
    if es == [] || !s.q[i].used then []
    else
      var rest := PassesOver(addr, Do(addr, s, es[0]), i, es[1..]);
      if es[0].Timer? && FirstDue(s.q, es[0].tx.t, 0) == i then [es[0].tx] + rest else rest
  }

  /** Passes over the receipt that each find it there and due. */
  predicate Timed(addr: nat, it: Item, txs: seq<Tx>)
    decreases |txs|
  {
    txs == [] || (it.used && it.due <= txs[0].t && Forward(txs[0]) && Timed(addr, Process(addr, it, txs[0]), txs[1..]))
  }

  /** Time the passes were late, and time spent inside the gate. */
  function Slack(addr: nat, it: Item, txs: seq<Tx>): int
    decreases |txs|
  {
    if txs == [] then 0
    else (txs[0].t - it.due) + InGate(txs[0]) + Slack(addr, Process(addr, it, txs[0]), txs[1..])
  }

  /** After a denial the clock is not read again. */
  function InGate(tx: Tx): int { if tx.rc == Budget then 0 else tx.after - tx.t }

  /** The due time a pass leaves is the moment it counts from plus the delay. */
  lemma DueIs(addr: nat, it: Item, tx: Tx)
    requires it.used && ItemOk(it) && Forward(tx)
    ensures var it' := Process(addr, it, tx); it'.used ==> it'.due == tx.t + InGate(tx) + Delay(addr, it, tx)
  {
    hide RetryDelay;
    DelayShort(addr, it, tx);
  }

  lemma DelayShort(addr: nat, it: Item, tx: Tx)
    requires it.used && ItemOk(it)
    ensures Delay(addr, it, tx) <= 63_398
  {
    hide SlotDelay;
    assert it.sent == 0 || it.sent == 1 || it.sent == 2;
  }

  /** Each pass but the receipt's last is as late as the delays scheduled before
      it, the lateness and the gate time make it: no sooner and no later. */
  lemma {:induction false} MomentIs(addr: nat, it: Item, txs: seq<Tx>, k: nat)
    requires ItemOk(it) && Timed(addr, it, txs) && k < |txs|
    ensures txs[k].t + InGate(txs[k]) == it.due + DelaySum(addr, it, txs[..k]) + Slack(addr, it, txs[..k + 1])
    ensures txs[k].t >= it.due + DelaySum(addr, it, txs[..k])
    decreases k
  {
    hide Process, Delay, ItemOk, Forward;
    if k == 0 {
      assert txs[..1][1..] == [];
    } else {
      var it' := Process(addr, it, txs[0]);
      ProcessUsesUp(addr, it, txs[0]);
      DueIs(addr, it, txs[0]);
      GateForward(txs[0]);
      MomentIs(addr, it', txs[1..], k - 1);
      assert txs[..k][1..] == txs[1..][..k - 1] && txs[..k + 1][1..] == txs[1..][..k];
      assert txs[..k][0] == txs[0] && txs[..k + 1][0] == txs[0];
    }
  }

  lemma GateForward(tx: Tx)
    requires Forward(tx)
    ensures InGate(tx) >= 0
  {
  }

  lemma {:induction false} PassesAreTimed(addr: nat, s: Tally, i: nat, es: seq<Event>)
    requires i < |s.q| && forall k :: 0 <= k < |es| && es[k].Timer? ==> Forward(es[k].tx)
    ensures Timed(addr, s.q[i], PassesOver(addr, s, i, es))
    decreases |es|
  {
    hide Process, Delay, Forward, InitialDelay;
    if es != [] && s.q[i].used {
      PassesAreTimed(addr, Do(addr, s, es[0]), i, es[1..]);
      var rest := PassesOver(addr, Do(addr, s, es[0]), i, es[1..]);
      if es[0].Timer? && FirstDue(s.q, es[0].tx.t, 0) == i {
        assert ([es[0].tx] + rest)[1..] == rest;
      }
    }
  }

  /** In every run on a forward clock, the passes over a receipt from the moment
      it is asked for: none comes sooner than the delays scheduled until then,
      and none later than 179,474 ms after, give or take the time passes were
      late and the gate took. */
  lemma ReceiptMoments(addr: nat, s: Tally, pkt: nat, bytes: seq<bv8>, peers: nat, rnd: nat, now: nat, es: seq<Event>, k: nat)
    requires FirstFree(s.q, 0) < |s.q| && now + 31_699 < WRAP
    requires forall j :: 0 <= j < |es| && es[j].Timer? ==> Forward(es[j].tx)
    requires k < |PassesOver(addr, Do(addr, s, Ask(pkt, bytes, peers, rnd, now)), FirstFree(s.q, 0), es)|
    ensures var i, t := FirstFree(s.q, 0), Do(addr, s, Ask(pkt, bytes, peers, rnd, now));
      var txs := PassesOver(addr, t, i, es);
      var it := t.q[i];
      && k < 24
      && now + InitialDelay(addr, pkt, peers, rnd) + DelaySum(addr, it, txs[..k]) <= txs[k].t
      && txs[k].t + InGate(txs[k]) == now + InitialDelay(addr, pkt, peers, rnd) + DelaySum(addr, it, txs[..k]) + Slack(addr, it, txs[..k + 1])
      && txs[k].t + InGate(txs[k]) <= now + 179_474 + Slack(addr, it, txs[..k + 1])
  {
    hide Process, Delay, DelaySum, SlotDelay, Forward, Timed, Slack, Calls, Passes;
    var i, t := FirstFree(s.q, 0), Do(addr, s, Ask(pkt, bytes, peers, rnd, now));
    var txs := PassesOver(addr, t, i, es);
    PassesAreTimed(addr, t, i, es);
    assert t.q[i] == Queued(pkt, bytes, now + InitialDelay(addr, pkt, peers, rnd));
    MomentIs(addr, t.q[i], txs, k);
    ReceiptBound(addr, pkt, bytes, peers, rnd, t.q[i].due, txs[..k]);
    ReceiptBound(addr, pkt, bytes, peers, rnd, t.q[i].due, txs);
    AllCalls(addr, t.q[i], txs);
  }

  lemma {:induction false} AllCalls(addr: nat, it: Item, txs: seq<Tx>)
    requires Timed(addr, it, txs)
    ensures Calls(addr, it, txs) == |txs|
    decreases |txs|
  {
    hide Process;
    if txs != [] { AllCalls(addr, Process(addr, it, txs[0]), txs[1..]); }
  }

  /** A wait halved while the airtime is plenty, doubled while it is short. */
  function Stretched(ms: nat, remaining: nat): nat {
    if remaining > 8400 then ms / 2 else if remaining <= 3480 then 2 * ms else ms
  }

  /** What is waited: 250 to 999 ms after a busy channel put the receipt off; a
      second and two more per attempt, and up to another, after a denial or the
      eighth deferral; the slot's 300 ms to 31.3 s, and up to 399 ms more, after
      a transmission. The last two are stretched by the airtime left. */
  lemma DelayRange(addr: nat, it: Item, tx: Tx)
    requires it.used && ItemOk(it) && Process(addr, it, tx).used
    ensures var d, rem, n := Delay(addr, it, tx), tx.remaining, it.sent + 1;
      if tx.rc == Busy && it.defers < 7 then 250 <= d <= 999
      else if tx.rc == Busy || tx.rc == Budget then Stretched(1000 + 2000 * n, rem) <= d <= Stretched(1999 + 2000 * n, rem)
      else Stretched(300, rem) <= d <= Stretched(31_699, rem)
  {
    hide SlotDelay;
    assert it.sent == 0 || it.sent == 1 || it.sent == 2;
  }

  /** How far the pass b keeps from the pass a before it: 250 ms after a busy
      channel put the receipt off, a second and two more per attempt after a
      denial or the eighth deferral, 300 ms after a transmission, the last two
      at the least halved. */
  predicate Apart(it: Item, a: Tx, b: Tx) {
    if a.rc == Busy && it.defers < 7 then b.t >= a.after + 250
    else if a.rc == Busy then b.t >= a.after + Stretched(1000 + 2000 * (it.sent + 1), a.remaining)
    else if a.rc == Budget then b.t >= a.t + Stretched(1000 + 2000 * (it.sent + 1), a.remaining)
    else b.t >= a.after + Stretched(300, a.remaining)
  }

  lemma DueApart(addr: nat, it: Item, a: Tx, b: Tx)
    requires it.used && ItemOk(it) && Forward(a) && Process(addr, it, a).used && Process(addr, it, a).due <= b.t
    ensures Apart(it, a, b)
  {
    hide Delay, Stretched;
    DueIs(addr, it, a);
    DelayRange(addr, it, a);
  }

  lemma {:induction false} TimedApart(addr: nat, it: Item, txs: seq<Tx>, k: nat)
    requires ItemOk(it) && Timed(addr, it, txs) && k + 1 < |txs|
    ensures Apart(Play(addr, it, txs[..k]), txs[k], txs[k + 1])
    decreases k
  {
    hide Process, ItemOk, Forward, Apart;
    if k == 0 {
      DueApart(addr, it, txs[0], txs[1]);
    } else {
      ProcessUsesUp(addr, it, txs[0]);
      TimedApart(addr, Process(addr, it, txs[0]), txs[1..], k - 1);
      assert txs[..k][1..] == txs[1..][..k - 1] && txs[..k][0] == txs[0];
    }
  }

  /** In every run on a forward clock, successive passes over one receipt keep
      that far apart, whatever else the queue does in between. */
  lemma PassesApart(addr: nat, s: Tally, i: nat, es: seq<Event>, k: nat)
    requires i < |s.q| && ItemOk(s.q[i]) && forall j :: 0 <= j < |es| && es[j].Timer? ==> Forward(es[j].tx)
    requires k + 1 < |PassesOver(addr, s, i, es)|
    ensures var txs := PassesOver(addr, s, i, es); Apart(Play(addr, s.q[i], txs[..k]), txs[k], txs[k + 1])
  {
    hide Process, ItemOk, Forward, Apart, Timed, Play, PassesOver;
    PassesAreTimed(addr, s, i, es);
    TimedApart(addr, s.q[i], PassesOver(addr, s, i, es), k);
  }

  /** Due times are compared as plain numbers, so a wait that reaches the wrap of
      the 32-bit clock is over at once: the receipt is due again at the very moment
      the delay is counted from exactly if moment and delay together reach it. */
  lemma DueAtOnceIff(addr: nat, it: Item, tx: Tx)
    requires it.used && ItemOk(it) && tx.t <= tx.after < WRAP && Process(addr, it, tx).used
    ensures var from := tx.t + InGate(tx); Process(addr, it, tx).due <= from <==> from + Delay(addr, it, tx) >= WRAP
  {
    hide RetryDelay, BackoffDelay;
    DelayShort(addr, it, tx);
    DelayRange(addr, it, tx);
  }

  /** It does happen: put off by a busy channel 100 ms before the wrap, a receipt is passed over again 1 ms later. */
  lemma TooSoonAtTheWrap(addr: nat, pkt: nat, bytes: seq<bv8>)
    ensures var it := Process(addr, Queued(pkt, bytes, 0), Tx(Busy, WRAP - 100, WRAP - 100, 0, 12_000, 0));
      it.used && it.due == 150 && FirstDue([it], WRAP - 99, 0) == 0
  {
  }

  /** s_receipt_queue. */
  class ReceiptQueue {
    const slots: array<Item>
    const addr: nat
    ghost var tally: Tally

    ghost predicate Valid()
      reads this, slots
    {
      slots.Length == SLOTS && tally.q == slots[..] && Covered(tally)
    }

    constructor (self: nat)
      ensures Valid() && fresh(slots) && addr == self && tally == Empty()
    {
      slots := new Item[SLOTS](i => Blank());
      addr := self;
      tally := Empty();
      EmptySums(SLOTS);
    }

    /** queue_broadcast_delivery_receipt, once the packet is built. */
    method Ask(pkt: nat, bytes: seq<bv8>, peers: nat, rnd: nat, now: nat)
      requires Valid()
      modifies this`tally, slots
      ensures Valid() && tally == Do(addr, old(tally), Event.Ask(pkt, bytes, peers, rnd, now))
    {
      hide Covered;
      StepCovered(addr, tally, Event.Ask(pkt, bytes, peers, rnd, now));
      var i := 0;
      while i < SLOTS && slots[i].used
        invariant i <= SLOTS && FirstFree(slots[..], 0) == FirstFree(slots[..], i)
      {
        i := i + 1;
      }
      if i < SLOTS {
        var d := InitialDelay(addr, pkt, peers, rnd);
        slots[i] := Queued(pkt, bytes, (now + d) % WRAP);
      }
      tally := Do(addr, tally, Event.Ask(pkt, bytes, peers, rnd, now));
    }

    /** mesh_process_receipt_tx_event. */
    method Timer(tx: Tx)
      requires Valid()
      modifies this`tally, slots
      ensures Valid() && tally == Do(addr, old(tally), Event.Timer(tx))
    {
      hide Covered, Process, Delay;
      StepCovered(addr, tally, Event.Timer(tx));
      var i := 0;
      while i < SLOTS && !(slots[i].used && slots[i].due <= tx.t)
        invariant i <= SLOTS && FirstDue(slots[..], tx.t, 0) == FirstDue(slots[..], tx.t, i)
      {
        i := i + 1;
      }
      if i < SLOTS {
        Send(i, tx);
      }
      tally := Do(addr, tally, Event.Timer(tx));
    }

    /** The attempt on one slot, branch by branch. */
    method Send(i: nat, tx: Tx)
      requires slots.Length == SLOTS && i < SLOTS
      modifies slots
      ensures slots[..] == old(slots[..])[i := Process(addr, old(slots[i]), tx)]
    {
      hide RetryDelay, BackoffDelay, DeferDelay;
      var it := slots[i];
      if tx.rc == Busy {
        it := it.(defers := it.defers + 1);
        if it.defers < MAX_DEFERS {
          slots[i] := it.(due := (tx.after + DeferDelay(tx)) % WRAP);
          return;
        }
      }
      it := it.(sent := it.sent + 1, defers := 0);
      if it.sent >= it.total {
        slots[i] := Blank();
        return;
      }
      var d := if tx.rc == Budget || tx.rc == Busy then BackoffDelay(it.sent, tx) else RetryDelay(addr, it.pkt, it.sent, tx);
      slots[i] := it.(due := ((if tx.rc == Budget then tx.t else tx.after) + d) % WRAP);
    }
  }
}
