/**
 * Tier two of the receiver's replay protection: a cache of (sender, counter)
 * records that lets a chat message arrive below the tier-one window, as long
 * as its authenticated send time is recent and the pair is unknown
 * (components/replay_window/replay_deferred.c).
 */
module ReplayDeferred {
  import opened Basics

  const RECORDS: nat := 128
  const SKEW_S: nat := 300
  const TTL_S: nat := 86_400

  datatype Record = Record(used: bool, src: nat, counter: nat, seenAt: nat)

  type Cache = d: seq<Record> | |d| == 128 witness seq(128, i => Record(false, 0, 0, 0))

  predicate Matches(r: Record, src: nat, c: nat) { r.used && r.src == src && r.counter == c }

  predicate Has(d: Cache, src: nat, c: nat) { exists i :: 0 <= i < RECORDS && Matches(d[i], src, c) }

  /** Index of the pair's record at or after `i`, or RECORDS. */
  function IndexOf(d: Cache, src: nat, c: nat, i: nat): (r: nat)
    requires i <= RECORDS
    ensures i <= r <= RECORDS
    ensures r < RECORDS ==> Matches(d[r], src, c)
    ensures forall k :: i <= k < r ==> !Matches(d[k], src, c)
    decreases RECORDS - i
  {
    if i == RECORDS then RECORDS
    else if Matches(d[i], src, c) then i
    else IndexOf(d, src, c, i + 1)
  }

  function FirstFree(d: Cache, i: nat): (r: nat)
    requires i <= RECORDS
    ensures i <= r <= RECORDS
    ensures r < RECORDS ==> !d[r].used
    ensures forall k :: i <= k < r ==> d[k].used
    decreases RECORDS - i
  {
    if i == RECORDS then RECORDS else if !d[i].used then i else FirstFree(d, i + 1)
  }

  function Oldest(d: Cache, now: nat, n: nat): (r: nat)
    requires n <= RECORDS
    ensures r < RECORDS
  {
    if n == 0 then 0
    else
      var best := Oldest(d, now, n - 1);
      if Age(now, d[n - 1].seenAt) > Age(now, d[best].seenAt) then n - 1 else best
  }

  datatype Find = Found(index: nat, evicted: bool) | Denied

  /** dslot_alloc: a free record, or one older than the acceptance TTL, or nothing. */
  function Alloc(d: Cache, now: nat): (r: Find)
    ensures r.Found? ==> r.index < RECORDS
    ensures r.Found? ==> (r.evicted <==> d[r.index].used)
    ensures r.Found? && r.evicted ==> Age(now, d[r.index].seenAt) > TTL_S
  {
    var free := FirstFree(d, 0);
    if free < RECORDS then Found(free, false)
    else
      var oldest := Oldest(d, now, RECORDS);
      if Age(now, d[oldest].seenAt) <= TTL_S then Denied else Found(oldest, true)
  }

  lemma {:induction false} OldestIsOldest(d: Cache, now: nat, n: nat)
    requires n <= RECORDS
    ensures forall k :: 0 <= k < n ==> Age(now, d[k].seenAt) <= Age(now, d[Oldest(d, now, n)].seenAt)
  {
    hide Age;
    if n > 0 { OldestIsOldest(d, now, n - 1); }
  }

  /** Which record a new one replaces: a free one, else the oldest if a day has
      passed over it; with all 128 younger, none. */
  lemma AllocMeaning(d: Cache, now: nat)
    ensures var f := Alloc(d, now);
      if exists i :: 0 <= i < 128 && !d[i].used then f.Found? && !f.evicted && !d[f.index].used
      else if exists i :: 0 <= i < 128 && Age(now, d[i].seenAt) > 86_400 then
        && f.Found? && f.evicted && Age(now, d[f.index].seenAt) > 86_400
        && (forall k :: 0 <= k < 128 ==> Age(now, d[k].seenAt) <= Age(now, d[f.index].seenAt))
      else f.Denied?
  {
    hide Age, Oldest;
    OldestIsOldest(d, now, RECORDS);
  }

  /** The send-time bound: true when the frame is too far ahead or too old. */
  predicate Stale(sentAt: nat, now: nat) {
    sentAt > (now + SKEW_S) % WRAP || (now > sentAt && now - sentAt > TTL_S)
  }

  datatype Outcome = Outcome(accepted: bool, cache: Cache, find: Find)

  /** replay_deferred_accept. `find` reports what dslot_alloc did, if it was asked. */
  function TryAccept(d: Cache, src: nat, c: nat, sentAt: nat, now: nat, confident: bool): (r: Outcome)
  {
    if !confident || Stale(sentAt, now) || IndexOf(d, src, c, 0) < RECORDS then
      Outcome(false, d, Found(0, false))
    else
      match Alloc(d, now)
      case Denied => Outcome(false, d, Denied)
      case Found(i, ev) => Outcome(true, d[i := Record(true, src, c, now)], Found(i, ev))
  }

  /** replay_deferred_mark_seen. */
  function MarkSeen(d: Cache, src: nat, c: nat, now: nat): (r: Outcome)
  {
    var at := IndexOf(d, src, c, 0);
    if at < RECORDS then
      Outcome(true, d[at := d[at].(seenAt := now)], Found(0, false))
    else
      match Alloc(d, now)
      case Denied => Outcome(false, d, Denied)
      case Found(i, ev) => Outcome(true, d[i := Record(true, src, c, now)], Found(i, ev))
  }

  /** The pair has a record stamped between `lo` and `hi`. */
  predicate HasSince(d: Cache, src: nat, c: nat, lo: nat, hi: nat) {
    exists i :: 0 <= i < RECORDS && Matches(d[i], src, c) && lo <= d[i].seenAt <= hi
  }

  /** Evicting a record is safe exactly when its frame was not sent ahead of the
      moment it was recorded: only then is every clock reading at which the
      record may be evicted also one at which the send-time bound rejects the
      frame. */
  lemma EvictableMeansStale(sentAt: nat, seenAt: nat)
    requires sentAt + TTL_S + SKEW_S + 1 < WRAP && seenAt + TTL_S + SKEW_S + 1 < WRAP
    ensures sentAt <= seenAt <==>
            (forall now: nat :: seenAt <= now < WRAP - SKEW_S && Age(now, seenAt) > TTL_S ==> Stale(sentAt, now))
  {
    if sentAt > seenAt {
      var now := seenAt + TTL_S + 1;
      assert Age(now, seenAt) == TTL_S + 1;
      if Stale(sentAt, now) {
        // only the ahead-of-now half can fire here
        now := if sentAt > now then sentAt else now;
        assert Age(now, seenAt) > TTL_S;
        assert !Stale(sentAt, now);
      }
    }
  }

  /** A tier-two acceptance needs a trusted clock, a fresh send time and an
      unknown pair, and then records the pair as MarkSeen would; a refusal
      changes nothing. */
  lemma AcceptRecords(d: Cache, src: nat, c: nat, sentAt: nat, now: nat, confident: bool)
    ensures var o := TryAccept(d, src, c, sentAt, now, confident);
      && (o.accepted ==> confident && !Stale(sentAt, now) && !Has(d, src, c) && o == MarkSeen(d, src, c, now))
      && (!o.accepted ==> o.cache == d)
      && (Has(d, src, c) ==> !o.accepted)
      && (o.find.Denied? ==> !o.accepted)
      && (o.accepted || o.find.Denied? ==> MarkSeen(d, src, c, now).find == o.find)
      && (!o.accepted && o.find.Found? ==> !o.find.evicted)
  {
  }

  /** What one recording call keeps: the pair is present afterwards unless the
      cache refused, and any other pair survives unless its own record was
      evicted, which takes a record older than the TTL. */
  lemma StoreStep(d: Cache, src: nat, c: nat, now: nat, x: nat, e: nat)
    ensures var o := MarkSeen(d, src, c, now);
            var lost := o.find.Found? && o.find.evicted && Matches(d[o.find.index], x, e);
      && (o.accepted <==> !o.find.Denied?)
      && (o.accepted ==> Has(o.cache, src, c))
      && (Has(d, x, e) && !lost ==> Has(o.cache, x, e))
      && (lost ==> Age(now, d[o.find.index].seenAt) > TTL_S)
  {
    var o := MarkSeen(d, src, c, now);
    var at := IndexOf(d, src, c, 0);
    if at < RECORDS {
      assert Matches(o.cache[at], src, c);
    } else if o.find.Found? {
      assert Matches(o.cache[o.find.index], src, c);
    }
    if Has(d, x, e) {
      var i :| 0 <= i < RECORDS && Matches(d[i], x, e);
      if o.find.Found? && (at < RECORDS || i != o.find.index) {
        assert Matches(o.cache[i], x, e);
      }
    }
  }

  /** A fresh recording is stamped now. */
  lemma StoreStampsNow(d: Cache, src: nat, c: nat, now: nat, lo: nat)
    requires lo <= now
    ensures var o := MarkSeen(d, src, c, now); o.accepted ==> HasSince(o.cache, src, c, lo, now)
  {
    var o := MarkSeen(d, src, c, now);
    var at := IndexOf(d, src, c, 0);
    if at < RECORDS {
      assert Matches(o.cache[at], src, c) && o.cache[at].seenAt == now;
    } else if o.find.Found? {
      assert Matches(o.cache[o.find.index], src, c) && o.cache[o.find.index].seenAt == now;
    }
  }

  /** A record is kept or refreshed until it is a TTL older than the clock. */
  lemma StoreStampsKeep(d: Cache, src: nat, c: nat, now: nat, x: nat, e: nat, lo: nat, hi: nat)
    requires hi <= now < WRAP && HasSince(d, x, e, lo, hi)
    ensures HasSince(MarkSeen(d, src, c, now).cache, x, e, lo, now) || now > lo + TTL_S
  {
    hide Oldest, FirstFree;
    var o := MarkSeen(d, src, c, now);
    var i :| 0 <= i < RECORDS && Matches(d[i], x, e) && lo <= d[i].seenAt <= hi;
    AgeIs(now, d[i].seenAt);
    hide Age;
    if o.cache[i] == d[i] || o.cache[i] == d[i].(seenAt := now) {
      assert Matches(o.cache[i], x, e) && lo <= o.cache[i].seenAt <= now;
    } else {
      assert i == o.find.index && o.find.evicted;
    }
  }

  lemma AgeIs(now: nat, then_: nat)
    requires then_ <= now < WRAP
    ensures Age(now, then_) == now - then_
  {
  }

  // ------------------------------------------------------- the mutable cache

  /** replay_deferred_t. */
  class DeferredCache {
    const records: array<Record>
    var evictions: nat
    var denied: nat

    ghost predicate Valid()
      reads this
    {
      records.Length == RECORDS
    }

    constructor ()
      ensures Valid() && fresh(records) && evictions == 0 && denied == 0
      ensures forall src: nat, c: nat :: !Has(records[..], src, c)
    {
      records := new Record[128](i => Record(false, 0, 0, 0));
      evictions, denied := 0, 0;
    }

    method Find(src: nat, c: nat) returns (i: nat)
      requires Valid()
      ensures i == IndexOf(records[..], src, c, 0)
    {
      i := 0;
      while i < RECORDS && !(records[i].used && records[i].src == src && records[i].counter == c)
        invariant i <= RECORDS && IndexOf(records[..], src, c, 0) == IndexOf(records[..], src, c, i)
      {
        i := i + 1;
      }
    }

    /** dslot_alloc's scan. */
    method Scan(now: nat) returns (i: nat, oldest: nat)
      requires Valid()
      ensures i == FirstFree(records[..], 0)
      ensures i == RECORDS ==> oldest == Oldest(records[..], now, RECORDS)
      ensures oldest < RECORDS
    {
      hide Age;
      i, oldest := 0, 0;
      while i < RECORDS && records[i].used
        invariant i <= RECORDS && oldest < RECORDS
        invariant FirstFree(records[..], 0) == FirstFree(records[..], i)
        invariant oldest == Oldest(records[..], now, i)
      {
        if Age(now, records[i].seenAt) > Age(now, records[oldest].seenAt) {
          oldest := i;
        }
        i := i + 1;
      }
    }

    /** dslot_alloc, with its counters. */
    method Allocate(now: nat) returns (f: Find)
      requires Valid()
      modifies this`evictions, this`denied
      ensures f == Alloc(records[..], now)
      ensures evictions == old(evictions) + (if f.Found? && f.evicted then 1 else 0)
      ensures denied == old(denied) + (if f.Denied? then 1 else 0)
    {
      var i, oldest := Scan(now);
      if i < RECORDS {
        f := Found(i, false);
      } else if Age(now, records[oldest].seenAt) <= TTL_S {
        denied := denied + 1;
        f := Denied;
      } else {
        evictions := evictions + 1;
        f := Found(oldest, true);
      }
    }

    /** What an outcome does to the counters. */
    ghost predicate Counts(o: Outcome, wasEvictions: nat, wasDenied: nat)
      reads this
    {
      && evictions == wasEvictions + (if o.find.Found? && o.find.evicted then 1 else 0)
      && denied == wasDenied + (if o.find.Denied? then 1 else 0)
    }

    /** replay_deferred_accept. */
    method Accept(src: nat, c: nat, sentAt: nat, now: nat, confident: bool) returns (ok: bool)
      requires Valid()
      modifies this, records
      ensures var o := TryAccept(old(records[..]), src, c, sentAt, now, confident);
        ok == o.accepted && records[..] == o.cache && Counts(o, old(evictions), old(denied))
    {
      hide Alloc, Stale;
      if !confident || Stale(sentAt, now) {
        return false;
      }
      var at := Find(src, c);
      if at < RECORDS {
        return false;
      }
      var f := Allocate(now);
      ok := f.Found?;
      if ok {
        records[f.index] := Record(true, src, c, now);
      }
    }

    /** replay_deferred_mark_seen. */
    method Mark(src: nat, c: nat, now: nat)
      requires Valid()
      modifies this, records
      ensures var o := MarkSeen(old(records[..]), src, c, now);
        records[..] == o.cache && Counts(o, old(evictions), old(denied))
    {
      hide Alloc;
      var at := Find(src, c);
      if at < RECORDS {
        records[at] := records[at].(seenAt := now);
        return;
      }
      var f := Allocate(now);
      if f.Found? {
        records[f.index] := Record(true, src, c, now);
      }
    }
  }
}
