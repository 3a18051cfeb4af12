/**
 * The delivery-event ring (main/delivery_event_ring.c) as a refinement of an
 * unbounded log: `log` is every event ever appended, and the ring holds the
 * last of them in place. Sequence numbers are taken not to wrap.
 */
module EventRing {

  const ROUTE_MAX: nat := 8
  const DEDUPE_MAX: nat := 64

  /** delivery_event_record_t. */
  datatype Record = Record(num: nat, message: nat, stamp: nat, recipient: nat, kind: nat, routeLen: nat, hops: seq<nat>)

  /** The record as stored: numbered, and its route clamped. */
  function Stored(e: Record, num: nat): (r: Record)
    ensures r == e.(num := num, routeLen := r.routeLen)
    ensures r.routeLen <= ROUTE_MAX && (r.routeLen == e.routeLen || r.routeLen == ROUTE_MAX < e.routeLen)
  {
    e.(num := num, routeLen := if e.routeLen > ROUTE_MAX then ROUTE_MAX else e.routeLen)
  }

  /** A log numbers its events 1, 2, 3, ... */
  predicate Numbered(log: seq<Record>) { forall i :: 0 <= i < |log| ==> log[i].num == i + 1 }

  function Min(a: nat, b: nat): nat { if a < b then a else b }

  /** The last `cap` events. */
  function Retained(log: seq<Record>, cap: nat): (r: seq<Record>)
    ensures |r| == Min(|log|, cap)
  {
    log[|log| - Min(|log|, cap)..]
  }

  /** The retained events newer than the cursor. */
  function Newer(log: seq<Record>, cap: nat, since: nat): (r: seq<Record>)
  {
    var start := |log| - Min(|log|, cap);
    if since >= |log| then [] else if since < start then log[start..] else log[since..]
  }

  /** What one call of list_since returns. */
  function Page(log: seq<Record>, cap: nat, since: nat, max: nat): seq<Record> {
    var n := Newer(log, cap, since);
    n[..Min(max, |n|)]
  }

  /** In a numbered log, a suffix is what its first number bounds. */
  lemma SuffixMeaning(log: seq<Record>, from: nat, e: Record)
    requires Numbered(log) && from <= |log|
    ensures e in log[from..] <==> e in log && e.num > from
  {
    if e in log && e.num > from {
      var i :| 0 <= i < |log| && log[i] == e;
      assert log[from..][i - from] == e;
    }
  }

  /** `Newer` is what the comparison of sequence numbers selects. */
  lemma NewerMeaning(log: seq<Record>, cap: nat, since: nat, e: Record)
    requires Numbered(log)
    ensures e in Newer(log, cap, since) <==> e in Retained(log, cap) && e.num > since
  {
    var start, from := |log| - Min(|log|, cap), First(log, cap, since);
    PageIs(log, cap, since, 0);
    hide Newer;
    SuffixMeaning(log, start, e);
    SuffixMeaning(log, from, e);
    assert e in log ==> e.num <= |log|;
  }

  /** Read page after page, each from the last number of the one before. */
  function Paged(log: seq<Record>, cap: nat, since: nat, max: nat): (r: seq<Record>)
    requires 0 < max && Numbered(log)
    decreases |log| - Min(since, |log|)
  {
    var page := Page(log, cap, since, max);
    if page == [] then []
    else
      PageLast(log, cap, since, max);
      page + Paged(log, cap, page[|page| - 1].num, max)
  }

  /** Where a page starts in the log. */
  function First(log: seq<Record>, cap: nat, since: nat): (r: nat)
    ensures r <= |log|
  {
    var start := |log| - Min(|log|, cap);
    if since < start then start else Min(since, |log|)
  }

  /** The events newer than the cursor, and a page of them, are stretches of the log. */
  lemma PageIs(log: seq<Record>, cap: nat, since: nat, max: nat)
    ensures var from := First(log, cap, since);
      && Newer(log, cap, since) == log[from..]
      && Page(log, cap, since, max) == log[from..from + Min(max, |log| - from)]
  {
  }

  lemma PageLast(log: seq<Record>, cap: nat, since: nat, max: nat)
    requires 0 < max && Numbered(log) && Page(log, cap, since, max) != []
    ensures var page := Page(log, cap, since, max); since < page[|page| - 1].num <= |log|
    ensures var page := Page(log, cap, since, max);
      Newer(log, cap, since) == page + Newer(log, cap, page[|page| - 1].num)
  {
    hide Newer, Page;
    var from := First(log, cap, since);
    PageIs(log, cap, since, max);
    var m := Min(max, |log| - from);
    PageIs(log, cap, from + m, max);
    assert First(log, cap, from + m) == from + m;
    Stretch(log, from, m);
  }

  lemma Stretch(log: seq<Record>, from: nat, m: nat)
    requires 0 < m && from + m <= |log| && Numbered(log)
    ensures log[from..] == log[from..from + m] + log[from + m..]
    ensures log[from..from + m][m - 1].num == from + m
  {
  }

  lemma EmptyPage(log: seq<Record>, cap: nat, since: nat, max: nat)
    requires 0 < max && Page(log, cap, since, max) == []
    ensures Newer(log, cap, since) == []
  {
  }

  /** Paging yields exactly the retained events newer than the cursor, in order, each once. */
  lemma {:induction false} PagingIsComplete(log: seq<Record>, cap: nat, since: nat, max: nat)
    requires 0 < max && Numbered(log)
    ensures Paged(log, cap, since, max) == Newer(log, cap, since)
    decreases |log| - Min(since, |log|)
  {
    hide Newer, Page;
    var page := Page(log, cap, since, max);
    if page == [] {
      EmptyPage(log, cap, since, max);
    } else {
      PageLast(log, cap, since, max);
      PagingIsComplete(log, cap, page[|page| - 1].num, max);
    }
  }

  /** A reader that pages while events keep arriving: each page comes from the
      log as it then is. */
  function LivePages(logs: seq<seq<Record>>, cap: nat, since: nat, max: nat): seq<Record>
    decreases |logs|
  {
    if logs == [] then []
    else
      var page := Page(logs[0], cap, since, max);
      page + LivePages(logs[1..], cap, if page == [] then since else page[|page| - 1].num, max)
  }

  predicate Growing(logs: seq<seq<Record>>) {
    && (forall i :: 0 <= i < |logs| ==> Numbered(logs[i]))
    && (forall i, j :: 0 <= i < j < |logs| ==> logs[i] <= logs[j])
  }

  /** It never sees an event twice or out of order. */
  lemma {:induction false} LivePagesAscend(logs: seq<seq<Record>>, cap: nat, since: nat, max: nat)
    requires 0 < max && Growing(logs)
    ensures Ascends(LivePages(logs, cap, since, max), since)
    decreases |logs|
  {
    hide Page;
    if logs != [] {
      var page := Page(logs[0], cap, since, max);
      PageAscends(logs[0], cap, since, max);
      var next := if page == [] then since else page[|page| - 1].num;
      assert logs[0] in logs;
      LivePagesAscend(logs[1..], cap, next, max);
      var rest := LivePages(logs[1..], cap, next, max);
      AscendingConcat(page, rest, since, next);
      assert LivePages(logs, cap, since, max) == page + rest;
    }
  }

  predicate Ascends(r: seq<Record>, since: nat) {
    && (forall i :: 0 <= i < |r| ==> r[i].num > since)
    && (forall i, j :: 0 <= i < j < |r| ==> r[i].num < r[j].num)
  }

  lemma AscendingConcat(a: seq<Record>, b: seq<Record>, since: nat, next: nat)
    requires Ascends(a, since) && Ascends(b, next) && next == if a == [] then since else a[|a| - 1].num
    ensures Ascends(a + b, since)
  {
    var r := a + b;
    forall i | 0 <= i < |r| ensures r[i].num > since {
      if i >= |a| { assert r[i] == b[i - |a|]; }
    }
    forall i, j | 0 <= i < j < |r| ensures r[i].num < r[j].num {
      if i < |a| <= j {
        assert a[i].num <= next && r[j] == b[j - |a|];
      }
    }
  }

  lemma PageAscends(log: seq<Record>, cap: nat, since: nat, max: nat)
    requires Numbered(log)
    ensures Ascends(Page(log, cap, since, max), since)
  {
  }

  // ----------------------------------------------------------- receipts

  predicate Match(e: Record, message: nat) { e.message == message && e.recipient != 0 }

  /** Recipients with a record for the message, in the order first seen. */
  function FirstSeen(es: seq<Record>, message: nat): (r: seq<nat>)
  {
    if es == [] then []
    else
      var s := FirstSeen(es[..|es| - 1], message);
      var e := es[|es| - 1];
      if Match(e, message) && e.recipient !in s then s + [e.recipient] else s
  }

  /** One of the first n records is for this message and recipient. */
  predicate SeenBy(es: seq<Record>, n: nat, message: nat, x: nat)
    requires n <= |es|
  {
    exists i :: 0 <= i < n && Match(es[i], message) && es[i].recipient == x
  }

  lemma SeenByPrefix(es: seq<Record>, m: nat, n: nat, message: nat, x: nat)
    requires n <= m <= |es|
    ensures SeenBy(es[..m], n, message, x) <==> SeenBy(es, n, message, x)
  {
    if SeenBy(es, n, message, x) {
      var i :| 0 <= i < n && Match(es[i], message) && es[i].recipient == x;
      assert es[..m][i] == es[i];
    }
  }

  lemma SeenByLast(es: seq<Record>, message: nat, x: nat)
    requires es != []
    ensures var e := es[|es| - 1];
      SeenBy(es, |es|, message, x) <==> SeenBy(es, |es| - 1, message, x) || (Match(e, message) && e.recipient == x)
  {
  }

  /** Exactly the recipients with a matching record. */
  lemma {:induction false} FirstSeenMembers(es: seq<Record>, message: nat, x: nat)
    ensures x in FirstSeen(es, message) <==> SeenBy(es, |es|, message, x)
  {
    if es != [] {
      var n := |es| - 1;
      FirstSeenMembers(es[..n], message, x);
      SeenByPrefix(es, n, n, message, x);
      SeenByLast(es, message, x);
    }
  }

  predicate Distinct(r: seq<nat>) { forall i, j :: 0 <= i < j < |r| ==> r[i] != r[j] }

  lemma DistinctSnoc(s: seq<nat>, x: nat)
    requires Distinct(s) && x !in s
    ensures Distinct(s + [x])
  {
  }

  /** Each once. */
  lemma {:induction false} FirstSeenDistinct(es: seq<Record>, message: nat)
    ensures Distinct(FirstSeen(es, message))
  {
    if es != [] {
      var s, x := FirstSeen(es[..|es| - 1], message), es[|es| - 1].recipient;
      FirstSeenDistinct(es[..|es| - 1], message);
      if x !in s { DistinctSnoc(s, x); }
    }
  }

  /** In the order of their first records: wherever a later one has a record,
      the earlier one had one before. */
  lemma {:induction false} FirstSeenOrder(es: seq<Record>, message: nat, i: nat, j: nat, k: nat)
    requires i < j < |FirstSeen(es, message)| && k < |es|
    requires Match(es[k], message) && es[k].recipient == FirstSeen(es, message)[j]
    ensures SeenBy(es, k, message, FirstSeen(es, message)[i])
  {
    hide SeenBy;
    var n := |es| - 1;
    var shorter := es[..n];
    var s, r := FirstSeen(shorter, message), FirstSeen(es, message);
    FirstSeenMembers(shorter, message, r[i]);
    SeenByPrefix(es, n, n, message, r[i]);
    if k < n {
      assert shorter[k] == es[k];
      FirstSeenMembers(shorter, message, r[j]);
      SeenHere(shorter, k, message);
      FirstSeenDistinct(es, message);
      assert r[j] in s;
      assert j < |s|;
      FirstSeenOrder(shorter, message, i, j, k);
      SeenByPrefix(es, n, k, message, r[i]);
    }
  }

  lemma SeenHere(es: seq<Record>, k: nat, message: nat)
    requires k < |es| && Match(es[k], message)
    ensures SeenBy(es, |es|, message, es[k].recipient)
  {
  }

  /** Who is listed: the non-zero recipients of the message's records, in some record each. */
  lemma FirstSeenMeaning(es: seq<Record>, message: nat, x: nat)
    ensures x in FirstSeen(es, message) <==> x != 0 && exists e :: e in es && e.message == message && e.recipient == x
  {
    FirstSeenMembers(es, message, x);
    if e :| e in es && e.message == message && e.recipient == x && x != 0 {
      var i :| 0 <= i < |es| && es[i] == e;
      assert Match(es[i], message);
    }
  }

  function Cap(s: seq<nat>, n: nat): seq<nat> { s[..Min(n, |s|)] }

  /** What the receipts query shows: first-seen order, cut at the dedupe bound. */
  function Receipts(es: seq<Record>, message: nat): seq<nat> {
    if message == 0 then [] else Cap(FirstSeen(es, message), DEDUPE_MAX)
  }

  // ------------------------------------------------------------ the ring

  /** Array index of the i-th oldest of `count` records when the next goes to `at`. */
  function Place(at: nat, count: nat, len: nat, i: nat): (r: nat)
    requires at < len && count <= len && i < count
    ensures r < len
  {
    var oldest := if count < len then 0 else at;
    if oldest + i < len then oldest + i else oldest + i - len
  }

  function Advance(at: nat, len: nat): nat { if at + 1 < len then at + 1 else 0 }

  lemma PlaceLast(at: nat, count: nat, len: nat)
    requires at < len && count <= len && (count < len ==> at == count)
    ensures var n := if count < len then count + 1 else count;
      Place(Advance(at, len), n, len, n - 1) == at
  {
  }

  lemma PlaceOld(at: nat, count: nat, len: nat, i: nat)
    requires at < len && count <= len && (count < len ==> at == count)
    requires if count < len then i < count else i + 1 < count
    ensures var n := if count < len then count + 1 else count;
      Place(Advance(at, len), n, len, i) == Place(at, count, len, if count < len then i else i + 1) != at
  {
  }

  /** One more, at the cost of the first if there is no room. */
  function Push(kept: seq<Record>, cap: nat, x: Record): seq<Record>
    requires 0 < cap && |kept| <= cap
  {
    (if |kept| < cap then kept else kept[1..]) + [x]
  }

  lemma RetainedAppend(log: seq<Record>, x: Record, cap: nat)
    requires 0 < cap
    ensures Retained(log + [x], cap) == Push(Retained(log, cap), cap, x)
    ensures Numbered(log) && x.num == |log| + 1 ==> Numbered(log + [x])
  {
  }

  lemma SameFront(s: seq<Record>, log: seq<Record>, from: nat, n: nat)
    requires n <= |s| && from + n <= |log| && forall k :: 0 <= k < n ==> s[k] == log[from + k]
    ensures s[..n] == log[from..from + n]
  {
  }

  lemma SameBack(s: seq<Record>, t: seq<Record>, n: nat)
    requires n <= |s| == |t| && forall k :: n <= k < |s| ==> s[k] == t[k]
    ensures s[n..] == t[n..]
  {
  }

  class Ring {
    const records: array<Record>
    var count: nat
    var writeIndex: nat
    var nextSeq: nat
    ghost var log: seq<Record>
    ghost var kept: seq<Record>

    function Index(i: nat): (r: nat)
      requires 0 < records.Length && count <= records.Length && writeIndex < records.Length && i < count
      reads this
      ensures r < records.Length
    {
      Place(writeIndex, count, records.Length, i)
    }

    /** The array holds `kept`, oldest first. */
    ghost predicate Laid()
      reads this, records
    {
      && 0 < records.Length && writeIndex < records.Length && |kept| == count <= records.Length
      && (count < records.Length ==> writeIndex == count)
      && (forall i :: 0 <= i < count ==> records[Index(i)] == kept[i])
    }

    /** ... which is the end of the log. */
    ghost predicate Valid()
      reads this, records
    {
      && Laid() && nextSeq == |log| + 1 && Numbered(log)
      && kept == Retained(log, records.Length)
    }

    constructor (capacity: nat)
      requires 0 < capacity
      ensures Valid() && fresh(records) && records.Length == capacity && log == []
    {
      hide Place;
      records := new Record[capacity](i => Record(0, 0, 0, 0, 0, 0, []));
      count, writeIndex, nextSeq, log, kept := 0, 0, 1, [], [];
    }

    /** The write of delivery_event_ring_append. */
    method Insert(x: Record)
      requires Laid()
      modifies this`count, this`writeIndex, this`kept, records
      ensures Laid() && kept == Push(old(kept), records.Length, x)
    {
      hide Place;
      ghost var was, n, at := kept, count, writeIndex;
      records[writeIndex] := x;
      writeIndex := Advance(writeIndex, records.Length);
      if count < records.Length {
        count := count + 1;
      }
      kept := Push(kept, records.Length, x);
      PlaceLast(at, n, records.Length);
      forall i | 0 <= i < count - 1 ensures records[Index(i)] == kept[i] {
        PlaceOld(at, n, records.Length, i);
        ghost var j := if n < records.Length then i else i + 1;
        assert kept[i] == was[j] == old(records[Place(at, n, records.Length, j)]);
      }
    }

    /** delivery_event_ring_append. */
    method Append(e: Record) returns (num: nat)
      requires Valid()
      modifies this, records
      ensures Valid() && num == |log| && log == old(log) + [Stored(e, num)]
    {
      num := nextSeq;
      var stored := Stored(e, num);
      RetainedAppend(log, stored, records.Length);
      hide Laid, Retained, Numbered, Push;
      Insert(stored);
      nextSeq := nextSeq + 1;
      log := log + [stored];
    }

    /** delivery_event_ring_latest_seq. */
    method LatestSeq() returns (num: nat)
      requires Valid()
      ensures num == |log|
    {
      num := if count == 0 then 0 else nextSeq - 1;
    }

    /** The i-th oldest retained record. */
    method Read(i: nat) returns (rec: Record)
      requires Valid() && i < count
      ensures rec == log[|log| - count + i] == Retained(log, records.Length)[i] && rec.num == |log| - count + i + 1
    {
      rec := records[Index(i)];
    }

    /** The loop of delivery_event_ring_list_since. */
    method CopyNewer(since: nat, out: array<Record>, ghost from: nat) returns (written: nat)
      requires Valid() && out != records && from == First(log, records.Length, since)
      modifies out
      ensures written == Min(out.Length, |log| - from)
      ensures forall k :: 0 <= k < written ==> out[k] == log[from + k]
      ensures forall k :: written <= k < out.Length ==> out[k] == old(out[k])
    {
      hide Numbered, Retained;
      written := 0;
      var i := 0;
      while i < count && written < out.Length
        invariant i <= count && written <= out.Length
        invariant if |log| - count + i <= from then written == 0 else from + written == |log| - count + i
        invariant forall k :: 0 <= k < written ==> out[k] == log[from + k]
        invariant forall k :: written <= k < out.Length ==> out[k] == old(out[k])
      {
        var rec := Read(i);
        if rec.num > since {
          out[written] := rec;
          written := written + 1;
        }
        i := i + 1;
      }
    }

    /** delivery_event_ring_list_since, into the caller's buffer. */
    method ListSince(since: nat, out: array<Record>) returns (written: nat)
      requires Valid() && out != records
      modifies out
      ensures written <= out.Length
      ensures out[..written] == Page(log, records.Length, since, out.Length)
      ensures out[written..] == old(out[written..])
    {
      ghost var from := First(log, records.Length, since);
      PageIs(log, records.Length, since, out.Length);
      hide Page, First, Valid;
      written := CopyNewer(since, out, from);
      SameFront(out[..], log, from, written);
      SameBack(out[..], old(out[..]), written);
      assert out[..][..written] == out[..written];
    }

    /** delivery_event_ring_receipts_for_message, into the caller's buffer. */
    method ReceiptsFor(message: nat, out: array<nat>) returns (written: nat, total: nat)
      requires Valid()
      modifies out
      ensures var all := Receipts(Retained(log, records.Length), message);
        total == |all| && written == Min(total, out.Length) && out[..written] == all[..written]
      ensures out[written..] == old(out[written..])
    {
      hide FirstSeen, Cap, Retained, Numbered;
      written, total := 0, 0;
      if message == 0 {
        return;
      }
      var seen: seq<nat> := [];
      ghost var r := Retained(log, records.Length);
      NoneSeen(message);
      var i := 0;
      while i < count
        invariant i <= count
        invariant seen == Cap(FirstSeen(r[..i], message), DEDUPE_MAX)
        invariant written == Min(|seen|, out.Length)
        invariant forall k :: 0 <= k < written ==> out[k] == seen[k]
        invariant forall k :: written <= k < out.Length ==> out[k] == old(out[k])
      {
        var e := Read(i);
        SeenStep(r, i, message);
        if e.message == message && e.recipient != 0 && e.recipient !in seen && |seen| < DEDUPE_MAX {
          seen := seen + [e.recipient];
          if written < out.Length {
            out[written] := e.recipient;
            written := written + 1;
          }
        }
        i := i + 1;
      }
      assert r[..count] == r;
      total := |seen|;
    }
  }

  lemma NoneSeen(message: nat)
    ensures Cap(FirstSeen([], message), DEDUPE_MAX) == []
  {
  }

  /** One more record, seen through the dedupe bound. */
  lemma SeenStep(r: seq<Record>, i: nat, message: nat)
    requires i < |r|
    ensures var seen, e := Cap(FirstSeen(r[..i], message), DEDUPE_MAX), r[i];
      Cap(FirstSeen(r[..i + 1], message), DEDUPE_MAX) ==
        if Match(e, message) && e.recipient !in seen && |seen| < DEDUPE_MAX then seen + [e.recipient] else seen
  {
    var s := FirstSeen(r[..i], message);
    assert r[..i + 1][..i] == r[..i] && r[..i + 1][i] == r[i];
    assert |s| <= DEDUPE_MAX ==> Cap(s, DEDUPE_MAX) == s;
  }
}
