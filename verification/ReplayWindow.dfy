/**
 * Tier one of the receiver's replay protection: a per-sender sliding window
 * over the authenticated nonce counter, held as a 64-bit map below a
 * high-water mark, in a table of 64 sender slots
 * (components/replay_window/replay_window.c).
 *
 * The bitmap is the fast form. `Accepted` reads it back as the set of counters
 * the slot still remembers, and `StepRefinesSet` proves that one call of the
 * bitmap code is one step of that set.
 */
module ReplayWindow {
  import opened Basics

  const SENDERS: nat := 64
  const WIDTH: nat := 64
  const MIN_IDLE_MS: nat := 900_000

  datatype Verdict = Accept | Duplicate | BelowWindow | NoSlot

  /** A 64-bit word, least significant bit first. */
  type Word = w: seq<bool> | |w| == 64 witness seq(64, i => false)

  function Zero(): Word { seq(64, i => false) }

  /** `w << n` in 64 bits. */
  function Shl(w: Word, n: nat): Word { seq(64, i requires 0 <= i < 64 => i >= n && w[i - n]) }

  /** `1ull << n`. */
  function Mask(n: nat): Word requires n < 64 { seq(64, i => i == n) }

  /** `a | b`. */
  function Or(a: Word, b: Word): Word { seq(64, i requires 0 <= i < 64 => a[i] || b[i]) }

  datatype Slot = Slot(used: bool, src: nat, highWater: nat, window: Word, lastSeen: nat, seen: bool)

  /** The counters the slot remembers as delivered. */
  predicate Accepted(s: Slot, c: nat) {
    s.seen && c <= s.highWater &&
    (c == s.highWater || (s.highWater - c <= WIDTH && s.window[s.highWater - c - 1]))
  }

  /** The window after the high-water mark rises by `shift`. */
  function Slide(w: Word, shift: nat): Word
    requires shift > 0
  {
    if shift > WIDTH then Zero()
    else if shift == WIDTH then Mask(63)
    else Or(Shl(w, shift), Mask(shift - 1))
  }

  /** The counter part of replay_check_and_add, once the sender's slot is in hand. */
  function CheckSlot(s: Slot, c: nat): (r: (Verdict, Slot))
  {
    if !s.seen then
      (Accept, s.(seen := true, highWater := c))
    else if c > s.highWater then
      (Accept, s.(window := Slide(s.window, c - s.highWater), highWater := c))
    else
      var delta := s.highWater - c;
      if delta == 0 then (Duplicate, s)
      else if delta > WIDTH then (BelowWindow, s)
      else if s.window[delta - 1] then (Duplicate, s)
      else (Accept, s.(window := Or(s.window, Mask(delta - 1))))
  }

  /** A slot nobody has used yet carries a clear bitmap: slot_for resets both together. */
  predicate SlotOk(s: Slot) { !s.seen ==> s.window == Zero() }

  /**
   * The bitmap refines the set: the verdict is decided by membership and age
   * alone, and the step adds exactly the accepted counter, forgetting only
   * counters more than 64 below the new high-water mark.
   */
  lemma StepRefinesSet(s: Slot, c: nat)
    requires SlotOk(s)
    ensures var (v, s') := CheckSlot(s, c);
      && SlotOk(s') && s'.seen && s'.highWater >= s.highWater * (if s.seen then 1 else 0)
      && s'.(highWater := 0, window := Zero(), seen := false) == s.(highWater := 0, window := Zero(), seen := false)
      && (v == Duplicate <==> Accepted(s, c))
      && (v == BelowWindow <==> s.seen && c + WIDTH < s.highWater)
      && v != NoSlot
      && (v != Accept ==> s' == s)
      && (v == Accept ==> Accepted(s', c))
      && (v == Accept ==> forall d: nat :: d + WIDTH >= s'.highWater ==>
            (Accepted(s', d) <==> d == c || Accepted(s, d)))
  {
    var (v, s') := CheckSlot(s, c);
    if v == Accept {
      forall d: nat | d + WIDTH >= s'.highWater
        ensures Accepted(s', d) <==> d == c || Accepted(s, d)
      {
        if s.seen && c > s.highWater && d < s.highWater && c - s.highWater < WIDTH {
          assert s'.window[c - d - 1] == s.window[s.highWater - d - 1];
        }
      }
    }
  }

  // ---------------------------------------------------------------- the table

  type Table = t: seq<Slot> | |t| == 64 witness seq(64, i => FreeSlot())

  function FreeSlot(): Slot { Slot(false, 0, 0, Zero(), 0, false) }

  function Claimed(src: nat, now: nat): Slot { Slot(true, src, 0, Zero(), now, false) }

  /** First slot that ends slot_for's scan: the sender's own, or an unused one. */
  function ScanStop(t: Table, src: nat, i: nat): (r: nat)
    requires i <= SENDERS
    ensures i <= r <= SENDERS
    ensures forall k :: i <= k < r ==> t[k].used && t[k].src != src
    ensures r < SENDERS ==> !t[r].used || t[r].src == src
    decreases SENDERS - i
  {
    if i == SENDERS then SENDERS
    else if !t[i].used || t[i].src == src then i
    else ScanStop(t, src, i + 1)
  }

  /** Index the least-recently-seen scan holds after looking at slots 0..n-1. */
  function Lru(t: Table, now: nat, n: nat): (r: nat)
    requires n <= SENDERS
    ensures r < SENDERS
  {
    if n == 0 then 0
    else
      var best := Lru(t, now, n - 1);
      if Age(now, t[n - 1].lastSeen) > Age(now, t[best].lastSeen) then n - 1 else best
  }

  datatype Find = Found(index: nat, recycled: bool) | Denied

  /** slot_for: which slot serves the sender. */
  function SlotFor(t: Table, src: nat, now: nat): (r: Find)
    ensures r.Found? ==> r.index < SENDERS
  {
    var stop := ScanStop(t, src, 0);
    if stop < SENDERS then Found(stop, false)
    else
      var lru := Lru(t, now, SENDERS);
      if Age(now, t[lru].lastSeen) < MIN_IDLE_MS then Denied else Found(lru, true)
  }

  /** The slot the counter is checked against, after slot_for claimed or recycled it. */
  function Prepared(t: Table, src: nat, now: nat, f: Find): Slot
    requires f.Found? && f.index < SENDERS
  {
    var s := t[f.index];
    if s.used && !f.recycled && s.src == src then s.(lastSeen := now) else Claimed(src, now)
  }

  /** replay_check_and_add. */
  function Check(t: Table, src: nat, c: nat, now: nat): (r: (Verdict, Table))
  {
    var f := SlotFor(t, src, now);
    if f.Denied? then (NoSlot, t)
    else
      var (v, s') := CheckSlot(Prepared(t, src, now, f), c);
      (v, t[f.index := s'])
  }

  /** Did this call recycle a slot (the `evictions` counter)? */
  predicate Recycles(t: Table, src: nat, now: nat) {
    var f := SlotFor(t, src, now);
    f.Found? && f.recycled
  }

  /** One slot per sender, and unseen slots carry a clear bitmap. */
  predicate TableOk(t: Table) {
    && (forall i, j :: 0 <= i < j < SENDERS && t[i].used && t[j].used ==> t[i].src != t[j].src)
    && (forall i :: 0 <= i < SENDERS ==> SlotOk(t[i]))
    // slots fill from the front, so a free slot ends the used ones
    && (forall i, j :: 0 <= i < j < SENDERS && !t[i].used ==> !t[j].used)
  }

  /** The table remembers counter `c` of `src`. */
  predicate Remembers(t: Table, src: nat, c: nat) {
    exists i :: 0 <= i < SENDERS && t[i].used && t[i].src == src && Accepted(t[i], c)
  }

  /** The sender's high-water mark lies more than the window above `c`. */
  predicate Passed(t: Table, src: nat, c: nat) {
    exists i :: 0 <= i < SENDERS && t[i].used && t[i].src == src && t[i].seen && c + WIDTH < t[i].highWater
  }

  lemma SlotIsTheSendersOwn(t: Table, src: nat, now: nat, i: nat)
    requires TableOk(t) && i < SENDERS && t[i].used && t[i].src == src
    ensures SlotFor(t, src, now) == Found(i, false)
  {
    var stop := ScanStop(t, src, 0);
    assert stop <= i;
    assert t[stop].used;
  }

  lemma CheckKeepsTableOk(t: Table, src: nat, c: nat, now: nat)
    requires TableOk(t)
    ensures TableOk(Check(t, src, c, now).1)
  {
    var f := SlotFor(t, src, now);
    if f.Found? {
      var s := Prepared(t, src, now, f);
      StepRefinesSet(s, c);
      var t' := Check(t, src, c, now).1;
      assert t'[f.index].src == src && t'[f.index].used;
      forall k | 0 <= k < SENDERS && t[k].used && t[k].src == src
        ensures k == f.index
      {
        SlotIsTheSendersOwn(t, src, now, k);
      }
    }
  }

  /** A call that recycles nothing leaves every other sender's slot alone and
      runs the counter check on this sender's own history. */
  lemma CheckTouchesOneSlot(t: Table, src: nat, c: nat, now: nat)
    requires TableOk(t)
    requires !Recycles(t, src, now)
    ensures var (v, t') := Check(t, src, c, now);
            var f := SlotFor(t, src, now);
      && (f.Denied? ==> v == NoSlot && t' == t)
      && (f.Denied? ==> forall k :: 0 <= k < SENDERS && t[k].used ==> t[k].src != src)
      && (f.Found? ==>
          && t' == t[f.index := t'[f.index]]
          && t'[f.index].used && t'[f.index].src == src
          && (forall k :: 0 <= k < SENDERS && k != f.index && t[k].used ==> t[k].src != src)
          && (t[f.index].used ==> t[f.index].src == src)
          && (t[f.index].used ==> CheckSlot(t[f.index].(lastSeen := now), c) == (v, t'[f.index]))
          && (!t[f.index].used ==> CheckSlot(Claimed(src, now), c) == (v, t'[f.index])))
  {
    forall k | 0 <= k < SENDERS && t[k].used && t[k].src == src
      ensures SlotFor(t, src, now) == Found(k, false)
    {
      SlotIsTheSendersOwn(t, src, now, k);
    }
    var f := SlotFor(t, src, now);
    if f.Found? {
      StepRefinesSet(Prepared(t, src, now, f), c);
    }
  }

  /** The verdict of one call, in terms of what the table remembers. */
  lemma CheckVerdict(t: Table, src: nat, c: nat, now: nat)
    requires TableOk(t)
    requires !Recycles(t, src, now)
    ensures var (v, t') := Check(t, src, c, now);
      && (v == Duplicate <==> Remembers(t, src, c))
      && (v == BelowWindow <==> Passed(t, src, c))
      && (v == Accept ==> Remembers(t', src, c))
  {
    CheckTouchesOneSlot(t, src, c, now);
    var f := SlotFor(t, src, now);
    if f.Found? {
      StepRefinesSet(Prepared(t, src, now, f), c);
      var i := f.index;
      assert t[i].used ==> Accepted(t[i].(lastSeen := now), c) == Accepted(t[i], c);
    }
  }

  lemma SlotKeeps(s: Slot, c: nat, now: nat, d: nat)
    requires SlotOk(s)
    ensures var s' := CheckSlot(s.(lastSeen := now), c).1;
      && (Accepted(s, d) ==> Accepted(s', d) || (s'.seen && d + WIDTH < s'.highWater))
      && (s.seen && d + WIDTH < s.highWater ==> s'.seen && d + WIDTH < s'.highWater)
  {
    StepRefinesSet(s.(lastSeen := now), c);
    assert Accepted(s, d) == Accepted(s.(lastSeen := now), d);
  }

  /** Does this call give the sender's slot away? */
  predicate Displaces(t: Table, src: nat, now: nat, x: nat) {
    var f := SlotFor(t, src, now);
    f.Found? && f.recycled && t[f.index].src == x
  }

  lemma {:induction false} LruIdlest(t: Table, now: nat, n: nat)
    requires n <= SENDERS
    ensures forall k :: 0 <= k < n ==> Age(now, t[k].lastSeen) <= Age(now, t[Lru(t, now, n)].lastSeen)
  {
    hide Age;
    if n > 0 { LruIdlest(t, now, n - 1); }
  }

  /** Who is given a slot: one that has it keeps it; a new sender takes a free
      one, else the one idle longest if that is fifteen minutes or more; with all
      64 heard since, it is denied. */
  lemma SlotForMeaning(t: Table, src: nat, now: nat)
    requires TableOk(t)
    ensures var f := SlotFor(t, src, now);
      if exists i :: 0 <= i < 64 && t[i].used && t[i].src == src then f.Found? && !f.recycled && t[f.index].used && t[f.index].src == src
      else if exists i :: 0 <= i < 64 && !t[i].used then f.Found? && !f.recycled && !t[f.index].used
      else if exists i :: 0 <= i < 64 && Age(now, t[i].lastSeen) >= 900_000 then
        && f.Found? && f.recycled && Age(now, t[f.index].lastSeen) >= 900_000
        && (forall k :: 0 <= k < 64 ==> Age(now, t[k].lastSeen) <= Age(now, t[f.index].lastSeen))
      else f.Denied?
  {
    hide Age, Lru, ScanStop, TableOk;
    LruIdlest(t, now, SENDERS);
    if i :| 0 <= i < 64 && t[i].used && t[i].src == src { SlotIsTheSendersOwn(t, src, now, i); }
  }

  /** A sender just heard, whatever the verdict, is idle for no time, and one
      idle for less than fifteen minutes does not lose its slot. */
  lemma HeardKeepsSlot(t: Table, src: nat, c: nat, now: nat, x: nat)
    requires TableOk(t)
    ensures var t' := Check(t, src, c, now).1;
      !SlotFor(t, src, now).Denied? ==> exists i :: 0 <= i < 64 && t'[i].used && t'[i].src == src && t'[i].lastSeen == now
    ensures Displaces(t, src, now, x) ==> exists i :: 0 <= i < 64 && t[i].used && t[i].src == x && Age(now, t[i].lastSeen) >= 900_000
  {
    var f := SlotFor(t, src, now);
    if f.Found? {
      var s := Prepared(t, src, now, f);
      StepRefinesSet(s, c);
      assert Check(t, src, c, now).1[f.index] == CheckSlot(s, c).1;
      assert t[f.index].used || !f.recycled;
    }
  }

  /** A remembered counter stays remembered until its sender's window has moved
      past it, and from then on it stays below the window, unless the sender's
      own slot is given away. */
  lemma CheckKeepsMemory(t: Table, src: nat, c: nat, now: nat, x: nat, d: nat)
    requires TableOk(t) && !Displaces(t, src, now, x)
    ensures var t' := Check(t, src, c, now).1;
      && (Remembers(t, x, d) ==> Remembers(t', x, d) || Passed(t', x, d))
      && (Passed(t, x, d) ==> Passed(t', x, d))
  {
    var t' := Check(t, src, c, now).1;
    if !Recycles(t, src, now) { CheckTouchesOneSlot(t, src, c, now); }
    forall i | 0 <= i < SENDERS && t[i].used && t[i].src == x
      ensures t'[i].used && t'[i].src == x
      ensures Accepted(t[i], d) ==> Accepted(t'[i], d) || (t'[i].seen && d + WIDTH < t'[i].highWater)
      ensures t[i].seen && d + WIDTH < t[i].highWater ==> t'[i].seen && d + WIDTH < t'[i].highWater
    {
      if !Recycles(t, src, now) { SlotKeeps(t[i], c, now, d); }
    }
  }

  /** An accepted counter is remembered, whatever slot it was given. */
  lemma AcceptedIsRemembered(t: Table, src: nat, c: nat, now: nat)
    requires TableOk(t) && Check(t, src, c, now).0 == Accept
    ensures Remembers(Check(t, src, c, now).1, src, c)
  {
    var f := SlotFor(t, src, now);
    StepRefinesSet(Prepared(t, src, now, f), c);
    var t' := Check(t, src, c, now).1;
    assert t'[f.index].used && t'[f.index].src == src && Accepted(t'[f.index], c);
  }

  // ------------------------------------------------------- the mutable table

  /** replay_table_t, updated in place by replay_check_and_add. */
  class ReplayTable {
    const slots: array<Slot>
    var evictions: nat
    var denied: nat

    ghost predicate Valid()
      reads this, slots
    {
      slots.Length == SENDERS && TableOk(slots[..])
    }

    constructor ()
      ensures Valid() && fresh(slots)
      ensures forall src: nat, c: nat :: !Remembers(slots[..], src, c) && !Passed(slots[..], src, c)
      ensures evictions == 0 && denied == 0
    {
      slots := new Slot[64](i => FreeSlot());
      evictions, denied := 0, 0;
    }

    /** The walk of slot_for: where it stops, and the least recently seen slot on the way. */
    method Walk(src: nat, now: nat) returns (i: nat, lru: nat)
      requires slots.Length == SENDERS
      ensures i == ScanStop(slots[..], src, 0)
      ensures lru < SENDERS && lru == Lru(slots[..], now, i)
    {
      hide Age;
      ghost var t := slots[..];
      i, lru := 0, 0;
      while i < SENDERS && slots[i].used && slots[i].src != src
        invariant 0 <= i <= SENDERS
        invariant lru == Lru(t, now, i)
        invariant ScanStop(t, src, 0) == ScanStop(t, src, i)
        decreases SENDERS - i
      {
        if Age(now, slots[i].lastSeen) > Age(now, slots[lru].lastSeen) {
          lru := i;
        }
        i := i + 1;
      }
    }

    /** slot_for: the sender's own slot or a free one, else the least recently seen if idle. */
    method Scan(src: nat, now: nat) returns (f: Find)
      requires Valid()
      ensures f == SlotFor(slots[..], src, now)
    {
      hide Age, TableOk, Lru, ScanStop;
      var i, lru := Walk(src, now);
      if i < SENDERS {
        f := Found(i, false);
      } else if Age(now, slots[lru].lastSeen) < MIN_IDLE_MS {
        f := Denied;
      } else {
        f := Found(lru, true);
      }
    }

    /** replay_check_and_add: the bitmap table in place, exactly as `Check` describes it. */
    method CheckAndAdd(src: nat, c: nat, now: nat) returns (v: Verdict)
      requires Valid()
      modifies this`evictions, this`denied, slots
      ensures Valid()
      ensures (v, slots[..]) == Check(old(slots[..]), src, c, now)
      ensures evictions == old(evictions) + (if Recycles(old(slots[..]), src, now) then 1 else 0)
      ensures denied == old(denied) + (if SlotFor(old(slots[..]), src, now).Denied? then 1 else 0)
    {
      CheckKeepsTableOk(slots[..], src, c, now);
      ghost var t: Table := slots[..];
      var f := Scan(src, now);
      if f.Denied? {
        denied := denied + 1;
        return NoSlot;
      }
      if f.recycled {
        evictions := evictions + 1;
      }
      var i := f.index;
      var s := if slots[i].used && !f.recycled && slots[i].src == src then slots[i].(lastSeen := now) else Claimed(src, now);
      assert s == Prepared(t, src, now, f);
      var r := CheckSlot(s, c);
      slots[i] := r.1;
      v := r.0;
      assert slots[..] == t[i := r.1];
    }
  }
}
