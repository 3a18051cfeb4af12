/**
 * The message store (components/msg_store/msg_store.c): a ring of rows, one
 * per message, searched newest first and updated by uid or by packet id.
 *
 * The rows in order of age are a sequence; the functions below say what each
 * store operation does to that sequence, and `Ring` does it in place on the
 * circular array.
 */
module MsgStore {

  const TEXT_MAX: nat := 640
  const PARK_TTL_S: nat := 7200

  datatype Status = NoStatus | Sent | Delivered | Failed | Queued

  /** stored_msg_t, without the display-only fields. `dm` is `channel_index < 0`. */
  datatype Row = Row(peer: nat, uid: nat, outgoing: bool, dm: bool, status: Status, pkt: nat, stamp: nat, text: seq<char>)

  /** The text a row keeps of a message. */
  function Clip(text: seq<char>): (r: seq<char>)
    ensures |r| < TEXT_MAX && r <= text
    ensures |text| < TEXT_MAX ==> r == text
  {
    if |text| >= TEXT_MAX then text[..TEXT_MAX - 1] else text
  }

  /** Parked is sticky: a QUEUED row accepts no status but DELIVERED. */
  function Settle(old_: Status, new_: Status): Status {
    if old_ == Queued && new_ != Delivered then Queued else new_
  }

  /** Newest row carrying `uid`, or -1. */
  function FindUid(rows: seq<Row>, uid: nat): (i: int)
    ensures -1 <= i < |rows|
    ensures i >= 0 ==> rows[i].uid == uid
    ensures forall k :: i < k < |rows| ==> rows[k].uid != uid
    decreases |rows|
  {
    if rows == [] then -1
    else if rows[|rows| - 1].uid == uid then |rows| - 1
    else FindUid(rows[..|rows| - 1], uid)
  }

  /** Newest row carrying `pkt`, or -1. */
  function FindPkt(rows: seq<Row>, pkt: nat): (i: int)
    ensures -1 <= i < |rows|
    ensures i >= 0 ==> rows[i].pkt == pkt
    ensures forall k :: i < k < |rows| ==> rows[k].pkt != pkt
    decreases |rows|
  {
    if rows == [] then -1
    else if rows[|rows| - 1].pkt == pkt then |rows| - 1
    else FindPkt(rows[..|rows| - 1], pkt)
  }

  /** msg_store_update_by_uid. */
  function UpdateByUid(rows: seq<Row>, uid: nat, pkt: nat, st: Status): (r: (seq<Row>, bool))
    ensures |r.0| == |rows|
  {
    var i := FindUid(rows, uid);
    if uid == 0 || i < 0 then (rows, false)
    else (rows[i := rows[i].(pkt := if pkt != 0 then pkt else rows[i].pkt, status := Settle(rows[i].status, st))], true)
  }

  /** msg_store_update_status: the same rule, by packet id. */
  function UpdateByPkt(rows: seq<Row>, pkt: nat, st: Status): (r: (seq<Row>, bool))
    ensures |r.0| == |rows|
  {
    var i := FindPkt(rows, pkt);
    if pkt == 0 || i < 0 then (rows, false)
    else (rows[i := rows[i].(status := Settle(rows[i].status, st))], true)
  }

  /** msg_store_unpark: the user's cancel, the one door a failed send cannot use. */
  function Unpark(rows: seq<Row>, uid: nat): (r: (seq<Row>, bool))
    ensures |r.0| == |rows|
  {
    var i := FindUid(rows, uid);
    if uid == 0 || i < 0 || rows[i].status != Queued then (rows, false)
    else (rows[i := rows[i].(status := Failed)], true)
  }

  /** msg_store_add_full: append, dropping the oldest row of a full ring. */
  function Add(rows: seq<Row>, cap: nat, row: Row): (r: seq<Row>)
    requires 0 < cap && |rows| <= cap
    ensures 0 < |r| <= cap && r[|r| - 1] == row
    ensures forall x :: x in r ==> x == row || x in rows
  {
    (if |rows| < cap then rows else rows[1..]) + [row]
  }

  predicate ParkedDm(m: Row) { m.outgoing && m.dm && m.status == Queued && m.uid != 0 }

  predicate PastWindow(m: Row, nowS: nat) { nowS >= m.stamp && nowS - m.stamp > PARK_TTL_S }

  /** msg_store_park_window_open. */
  predicate WindowOpen(rows: seq<Row>, uid: nat, nowS: nat) {
    var i := FindUid(rows, uid);
    uid != 0 && i >= 0 && !PastWindow(rows[i], nowS)
  }

  /** msg_store_expire_parked: every overdue parked row becomes FAILED. */
  function Expire(rows: seq<Row>, nowS: nat): (r: seq<Row>)
    ensures |r| == |rows|
    ensures forall i :: 0 <= i < |rows| ==>
      r[i] == if ParkedDm(rows[i]) && PastWindow(rows[i], nowS) then rows[i].(status := Failed) else rows[i]
  {
    seq(|rows|, i requires 0 <= i < |rows| =>
      if ParkedDm(rows[i]) && PastWindow(rows[i], nowS) then rows[i].(status := Failed) else rows[i])
  }

  /** A row the parked selectors pick. */
  predicate Selected(m: Row, nowS: nat) { ParkedDm(m) && !PastWindow(m, nowS) }

  /** msg_store_parked_uids_for_peer, oldest first. */
  function ParkedUids(rows: seq<Row>, peer: nat, nowS: nat): (r: seq<nat>)
    ensures forall u :: u in r ==> u != 0
    ensures forall u :: u in r ==> exists m :: m in rows && m.uid == u && m.peer == peer && Selected(m, nowS)
  {
    if rows == [] then []
    else
      var m := rows[|rows| - 1];
      ParkedUids(rows[..|rows| - 1], peer, nowS) + (if Selected(m, nowS) && m.peer == peer then [m.uid] else [])
  }

  /** A row the parked-message scan picks for the peer. */
  predicate Picked(m: Row, peer: nat, nowS: nat) { Selected(m, nowS) && m.peer == peer }

  /** Where the picked rows among the first n stand: each of them, once, oldest first. */
  function PickedAt(rows: seq<Row>, peer: nat, nowS: nat, n: nat): (at: seq<nat>)
    requires n <= |rows|
    ensures forall k :: 0 <= k < |at| ==> at[k] < n && Picked(rows[at[k]], peer, nowS)
    ensures forall j, k :: 0 <= j < k < |at| ==> at[j] < at[k]
    ensures forall i :: 0 <= i < n && Picked(rows[i], peer, nowS) ==> i in at
  {
    if n == 0 then []
    else PickedAt(rows, peer, nowS, n - 1) + (if Picked(rows[n - 1], peer, nowS) then [n - 1] else [])
  }

  /** `uids` names the picked rows, one each, oldest first. */
  predicate OldestFirst(rows: seq<Row>, peer: nat, nowS: nat, uids: seq<nat>) {
    var at := PickedAt(rows, peer, nowS, |rows|);
    |uids| == |at| && forall k :: 0 <= k < |at| ==> uids[k] == rows[at[k]].uid
  }

  lemma {:induction false} PrefixOldestFirst(rows: seq<Row>, peer: nat, nowS: nat, n: nat)
    requires n <= |rows|
    ensures var at, uids := PickedAt(rows, peer, nowS, n), ParkedUids(rows[..n], peer, nowS);
      |uids| == |at| && forall k :: 0 <= k < |at| ==> uids[k] == rows[at[k]].uid
  {
    hide Selected;
    if n > 0 {
      PrefixOldestFirst(rows, peer, nowS, n - 1);
      assert rows[..n][..n - 1] == rows[..n - 1];
    }
  }

  /** The scan lists the picked rows' uids, one each, oldest first. */
  lemma ParkedOldestFirst(rows: seq<Row>, peer: nat, nowS: nat)
    ensures OldestFirst(rows, peer, nowS, ParkedUids(rows, peer, nowS))
  {
    PrefixOldestFirst(rows, peer, nowS, |rows|);
    assert rows[..|rows|] == rows;
  }

  /** The peers the sweep may turn to. */
  function ParkedPeers(rows: seq<Row>, nowS: nat): set<nat> {
    if rows == [] then {}
    else
      var m := rows[|rows| - 1];
      ParkedPeers(rows[..|rows| - 1], nowS) + (if Selected(m, nowS) then {m.peer} else {})
  }

  /** Which messages the flush and the sweep see: the uids listed for a peer, and
      the peers, are those of a QUEUED outgoing DM stamped no more than two hours
      ago, or ahead of the clock. */
  lemma ParkedMeaning(rows: seq<Row>, peer: nat, nowS: nat, uid: nat)
    ensures uid in ParkedUids(rows, peer, nowS) <==> uid != 0 && exists m :: m in rows && m.uid == uid && Waits(m, peer, nowS)
    ensures peer in ParkedPeers(rows, nowS) <==> exists m :: m in rows && m.uid != 0 && Waits(m, peer, nowS)
  {
    if m :| uid != 0 && m in rows && m.uid == uid && Waits(m, peer, nowS) {
      var i :| 0 <= i < |rows| && rows[i] == m;
      ParkedOldestFirst(rows, peer, nowS);
      var at := PickedAt(rows, peer, nowS, |rows|);
      var k :| 0 <= k < |at| && at[k] == i;
      assert ParkedUids(rows, peer, nowS)[k] == uid;
    }
    PeersMeaning(rows, peer, nowS);
  }

  predicate Waits(m: Row, peer: nat, nowS: nat) {
    m.peer == peer && m.outgoing && m.dm && m.status == Queued && nowS <= m.stamp + 7200
  }

  lemma {:induction false} PeersMeaning(rows: seq<Row>, peer: nat, nowS: nat)
    ensures peer in ParkedPeers(rows, nowS) <==> exists m :: m in rows && m.uid != 0 && Waits(m, peer, nowS)
  {
    if rows != [] {
      PeersMeaning(rows[..|rows| - 1], peer, nowS);
      assert rows == rows[..|rows| - 1] + [rows[|rows| - 1]];
    }
  }

  /** Row uids are distinct and never 0. */
  predicate DistinctUids(rows: seq<Row>) {
    && (forall i :: 0 <= i < |rows| ==> rows[i].uid != 0)
    && (forall i, j :: 0 <= i < j < |rows| ==> rows[i].uid != rows[j].uid)
  }

  // ------------------------------------------------------------ the ring

  /** Array index of the i-th oldest of `count` rows: (head - count + len + i) % len. */
  function Slot(head: nat, count: nat, len: nat, i: nat): (r: nat)
    requires head < len && count <= len && i < count
    ensures r < len
  {
    var x := if head >= count then head - count + i else head - count + len + i;
    if x < len then x else x - len
  }

  /** The index is the one the ring's modular arithmetic gives. */
  lemma SlotIsModular(head: nat, count: nat, len: nat, i: nat)
    requires head < len && count <= len && i < count
    ensures Slot(head, count, len, i) == ((head - count + len) % len + i) % len
  {
    var y := head - count + len;
    var start := if y < len then y else y - len;
    ModOnce(y, len);
    ModOnce(start + i, len);
  }

  lemma ModOnce(x: nat, n: nat)
    requires 0 < n && x < 2 * n
    ensures x % n == if x < n then x else x - n
  {
    if x >= n {
      assert x == 1 * n + (x - n);
    }
  }

  function Advance(head: nat, len: nat): nat { if head + 1 < len then head + 1 else 0 }

  /** Appending puts the new row at `head`, the last place. */
  lemma AppendLast(head: nat, count: nat, len: nat)
    requires head < len && count <= len
    ensures var n := if count < len then count + 1 else count;
      Slot(Advance(head, len), n, len, n - 1) == head
  {
  }

  /** ... and keeps every surviving row where it was: its rank falls by one if the ring was full. */
  lemma AppendOld(head: nat, count: nat, len: nat, i: nat)
    requires head < len && count <= len && (if count < len then i < count else i + 1 < count)
    ensures var n := if count < len then count + 1 else count;
      var was := if count < len then i else i + 1;
      Slot(Advance(head, len), n, len, i) == Slot(head, count, len, was) != head
  {
  }

  /** The circular buffer. `rows` is what it holds, oldest first. */
  class Ring {
    const slots: array<Row>
    var head: nat
    var count: nat
    ghost var rows: seq<Row>

    /** Array index of the i-th oldest row. */
    function At(i: nat): (r: nat)
      requires head < slots.Length && count <= slots.Length && i < count
      reads this
      ensures r < slots.Length
    {
      Slot(head, count, slots.Length, i)
    }

    ghost predicate Valid()
      reads this, slots
    {
      && head < slots.Length && count <= slots.Length
      && |rows| == count
      && (forall i :: 0 <= i < count ==> slots[At(i)] == rows[i])
    }

    constructor (cap: nat, blank: Row)
      requires 0 < cap
      ensures Valid() && fresh(slots) && slots.Length == cap && rows == []
    {
      slots := new Row[cap](i => blank);
      head, count, rows := 0, 0, [];
    }

    /** msg_store_add_full. */
    method AddRow(row: Row)
      requires Valid()
      modifies this, slots
      ensures Valid() && rows == Add(old(rows), slots.Length, row)
    {
      hide Slot;
      ghost var h, n, before := head, count, rows;
      slots[head] := row;
      rows := Add(rows, slots.Length, row);
      head := Advance(head, slots.Length);
      if count < slots.Length {
        count := count + 1;
      }
      AppendLast(h, n, slots.Length);
      forall i | 0 <= i < count - 1
        ensures slots[At(i)] == rows[i]
      {
        AppendOld(h, n, slots.Length, i);
        ghost var was := if n < slots.Length then i else i + 1;
        assert rows[i] == before[was] == old(slots[Slot(h, n, slots.Length, was)]);
      }
    }

    /** The newest-first walk every update starts with. */
    method Newest(uid: nat) returns (i: int)
      requires Valid()
      ensures i == FindUid(rows, uid)
    {
      i := count - 1;
      assert rows[..i + 1] == rows;
      while i >= 0 && slots[At(i)].uid != uid
        invariant -1 <= i < count
        invariant FindUid(rows, uid) == FindUid(rows[..i + 1], uid)
      {
        assert rows[..i + 1][..i] == rows[..i];
        i := i - 1;
      }
    }

    method NewestPkt(pkt: nat) returns (i: int)
      requires Valid()
      ensures i == FindPkt(rows, pkt)
    {
      i := count - 1;
      assert rows[..i + 1] == rows;
      while i >= 0 && slots[At(i)].pkt != pkt
        invariant -1 <= i < count
        invariant FindPkt(rows, pkt) == FindPkt(rows[..i + 1], pkt)
      {
        assert rows[..i + 1][..i] == rows[..i];
        i := i - 1;
      }
    }

    /** Overwrite the i-th oldest row. */
    method Put(i: nat, row: Row)
      requires Valid() && i < count
      modifies this`rows, slots
      ensures Valid() && rows == old(rows)[i := row]
    {
      slots[At(i)] := row;
      rows := rows[i := row];
    }

    /** msg_store_update_by_uid. */
    method Update(uid: nat, pkt: nat, st: Status) returns (found: bool)
      requires Valid()
      modifies this`rows, slots
      ensures Valid() && (rows, found) == UpdateByUid(old(rows), uid, pkt, st)
    {
      if uid == 0 {
        return false;
      }
      var i := Newest(uid);
      if i < 0 {
        return false;
      }
      var m := slots[At(i)];
      if pkt != 0 {
        m := m.(pkt := pkt);
      }
      var sticky := m.status == Queued && st != Delivered;
      if !sticky {
        m := m.(status := st);
      }
      Put(i, m);
      found := true;
    }

    /** msg_store_update_status. */
    method UpdateStatus(pkt: nat, st: Status) returns (found: bool)
      requires Valid()
      modifies this`rows, slots
      ensures Valid() && (rows, found) == UpdateByPkt(old(rows), pkt, st)
    {
      if pkt == 0 {
        return false;
      }
      var i := NewestPkt(pkt);
      if i < 0 {
        return false;
      }
      var m := slots[At(i)];
      var sticky := m.status == Queued && st != Delivered;
      if !sticky {
        m := m.(status := st);
      }
      Put(i, m);
      found := true;
    }

    /** msg_store_unpark. */
    method Cancel(uid: nat) returns (found: bool)
      requires Valid()
      modifies this`rows, slots
      ensures Valid() && (rows, found) == Unpark(old(rows), uid)
    {
      if uid == 0 {
        return false;
      }
      var i := Newest(uid);
      found := i >= 0 && slots[At(i)].status == Queued;
      if found {
        Put(i, slots[At(i)].(status := Failed));
      }
    }

    /** msg_store_expire_parked. */
    method ExpireParked(nowS: nat)
      requires Valid()
      modifies this`rows, slots
      ensures Valid() && rows == Expire(old(rows), nowS)
    {
      ghost var before := rows;
      var i := 0;
      while i < count
        invariant 0 <= i <= count && Valid()
        invariant count == old(count) && |before| == count
        invariant forall k :: 0 <= k < i ==> rows[k] == Expire(before, nowS)[k]
        invariant forall k :: i <= k < count ==> rows[k] == before[k]
      {
        var m := slots[At(i)];
        if ParkedDm(m) && PastWindow(m, nowS) {
          Put(i, m.(status := Failed));
        }
        i := i + 1;
      }
    }

    /** msg_store_parked_uids_for_peer. */
    method UidsFor(peer: nat, nowS: nat) returns (uids: seq<nat>)
      requires Valid()
      ensures uids == ParkedUids(rows, peer, nowS)
      ensures OldestFirst(rows, peer, nowS, uids)
    {
      uids := [];
      var i := 0;
      while i < count
        invariant 0 <= i <= count
        invariant uids == ParkedUids(rows[..i], peer, nowS)
      {
        var m := slots[At(i)];
        assert rows[..i + 1][..i] == rows[..i];
        if Selected(m, nowS) && m.peer == peer {
          uids := uids + [m.uid];
        }
        i := i + 1;
      }
      assert rows[..count] == rows;
      ParkedOldestFirst(rows, peer, nowS);
    }

    /** msg_store_next_parked_peer: the lowest parked peer above `after`, wrapping to the lowest. */
    method NextParkedPeer(after: nat, nowS: nat) returns (found: bool, peer: nat)
      requires Valid()
      ensures found <==> ParkedPeers(rows, nowS) != {}
      ensures found ==> peer in ParkedPeers(rows, nowS)
      ensures found ==> (forall q :: q in ParkedPeers(rows, nowS) && q > after ==> after < peer <= q)
      ensures found && peer <= after ==> (forall q :: q in ParkedPeers(rows, nowS) ==> peer <= q <= after)
    {
      var above := false;
      var lowest, next := 0, 0;
      found := false;
      var i := 0;
      while i < count
        invariant 0 <= i <= count
        invariant found <==> ParkedPeers(rows[..i], nowS) != {}
        invariant found ==> lowest in ParkedPeers(rows[..i], nowS)
        invariant found ==> forall q :: q in ParkedPeers(rows[..i], nowS) ==> lowest <= q
        invariant above ==> next in ParkedPeers(rows[..i], nowS) && next > after
        invariant above ==> forall q :: q in ParkedPeers(rows[..i], nowS) && q > after ==> next <= q
        invariant !above ==> forall q :: q in ParkedPeers(rows[..i], nowS) ==> q <= after
      {
        var m := slots[At(i)];
        assert rows[..i + 1][..i] == rows[..i];
        if Selected(m, nowS) {
          if !found || m.peer < lowest {
            lowest, found := m.peer, true;
          }
          if m.peer > after && (!above || m.peer < next) {
            next, above := m.peer, true;
          }
        }
        i := i + 1;
      }
      assert rows[..count] == rows;
      peer := if above then next else lowest;
    }
  }
}
