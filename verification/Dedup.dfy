/**
 * The packet-id dedup buffer (components/dedup/dedup.c): a bounded list of
 * recently seen keys with a 32-bit millisecond stamp each. The dispatcher keeps
 * one for every frame it hears and one for the unicast frames it has delivered.
 */
module Dedup {
  import opened Basics

  const CAPACITY: nat := 256
  const EXPIRY_MS: nat := 60_000

  datatype Seen = Seen(key: nat, at: nat)

  predicate Live(e: Seen, now: nat) { (now - e.at) % WRAP < EXPIRY_MS }

  /** dedup_purge: what is still live, in order. */
  function Purge(b: seq<Seen>, now: nat): (r: seq<Seen>)
    ensures |r| <= |b|
  {
    if b == [] then []
    else Purge(b[..|b| - 1], now) + (if Live(b[|b| - 1], now) then [b[|b| - 1]] else [])
  }

  lemma {:induction false} PurgeKeepsLive(b: seq<Seen>, now: nat)
    ensures forall e :: e in Purge(b, now) <==> e in b && Live(e, now)
  {
    hide Live;
    if b != [] {
      PurgeKeepsLive(b[..|b| - 1], now);
      assert b == b[..|b| - 1] + [b[|b| - 1]];
    }
  }

  predicate HasKey(b: seq<Seen>, key: nat) { exists i :: 0 <= i < |b| && b[i].key == key }

  /** dedup_contains: a pure look. */
  predicate Contains(b: seq<Seen>, key: nat, now: nat) {
    exists i :: 0 <= i < |b| && b[i].key == key && Live(b[i], now)
  }

  /** Index of the smallest stamp among the first n, first of equals. */
  function Oldest(b: seq<Seen>, n: nat): (r: nat)
    requires 0 < n <= |b|
    ensures r < n
    ensures forall k :: 0 <= k < n ==> b[r].at <= b[k].at
  {
    if n == 1 then 0
    else
      var o := Oldest(b, n - 1);
      if b[n - 1].at < b[o].at then n - 1 else o
  }

  /** dedup_check_and_add: was the key there, and the buffer afterwards. */
  function CheckAndAdd(b: seq<Seen>, key: nat, now: nat): (r: (bool, seq<Seen>))
    requires |b| <= CAPACITY
    ensures |r.1| <= CAPACITY
  {
    var p := Purge(b, now);
    if HasKey(p, key) then (true, p)
    else if |p| < CAPACITY then (false, p + [Seen(key, now)])
    else (false, p[Oldest(p, |p|) := Seen(key, now)])
  }

  /** The verdict is what the pure look says, and afterwards every remembered
      key was remembered before or is the one just asked about. */
  lemma CheckMeaning(b: seq<Seen>, key: nat, now: nat)
    requires |b| <= CAPACITY
    ensures CheckAndAdd(b, key, now).0 <==> Contains(b, key, now)
    ensures Contains(CheckAndAdd(b, key, now).1, key, now)
    ensures forall k :: HasKey(CheckAndAdd(b, key, now).1, k) ==> k == key || HasKey(b, k)
  {
    PurgeKeepsLive(b, now);
    var p := Purge(b, now);
    if Contains(b, key, now) {
      var i :| 0 <= i < |b| && b[i].key == key && Live(b[i], now);
      assert b[i] in p;
    }
    if HasKey(p, key) {
      var i :| 0 <= i < |p| && p[i].key == key;
      assert p[i] in p && p[i] in b;
    }
    assert Live(Seen(key, now), now);
    var q := CheckAndAdd(b, key, now).1;
    if !HasKey(p, key) { assert q[if |p| < CAPACITY then |p| else Oldest(p, |p|)].key == key; }
    forall k | HasKey(q, k) && k != key ensures HasKey(b, k) {
      var i :| 0 <= i < |q| && q[i].key == k;
      assert q[i] in p;
    }
  }

  /** A record outlives the arrival of other keys while it is live and the buffer has room. */
  lemma RecordLasts(b: seq<Seen>, key: nat, now: nat, other: nat)
    requires |b| < CAPACITY && Contains(b, key, now)
    ensures Contains(CheckAndAdd(b, other, now).1, key, now)
  {
    var i :| 0 <= i < |b| && b[i].key == key && Live(b[i], now);
    PurgeKeepsLive(b, now);
    var p := Purge(b, now);
    assert b[i] in p;
    var k :| 0 <= k < |p| && p[k] == b[i];
    assert CheckAndAdd(b, other, now).1[k] == b[i];
  }

  /** The first key of an empty buffer, and the end of its lifetime. */
  lemma OneSeen(key: nat, now: nat, later: nat)
    requires later == now + EXPIRY_MS
    ensures !Contains([], key, now)
    ensures CheckAndAdd([], key, now).1 == [Seen(key, now)] && !Contains([Seen(key, now)], key, later)
  {
  }

  lemma {:induction false} PurgeAllLive(b: seq<Seen>, now: nat)
    requires forall i :: 0 <= i < |b| ==> Live(b[i], now)
    ensures Purge(b, now) == b
  {
    if b != [] { PurgeAllLive(b[..|b| - 1], now); }
  }

  /** Keys key, key + 1, ... recorded at one moment. */
  function Burst(key: nat, n: nat, now: nat): seq<Seen> { seq(n, i requires 0 <= i < n => Seen(key + i, now)) }

  /** A burst of new keys fills the buffer, and one more pushes out the first. */
  lemma BurstStep(key: nat, n: nat, now: nat)
    requires 0 < n <= CAPACITY
    ensures var r := CheckAndAdd(Burst(key, n, now), key + n, now).1;
      if n < CAPACITY then r == Burst(key, n + 1, now) else !HasKey(r, key)
  {
    hide Purge, Oldest;
    var b := Burst(key, n, now);
    PurgeAllLive(b, now);
    assert !HasKey(b, key + n);
    if n < CAPACITY {
      assert b + [Seen(key + n, now)] == Burst(key, n + 1, now);
    } else {
      OldestOfEqual(b, n);
      assert forall i :: 0 < i < n ==> b[i].key != key;
    }
  }

  lemma {:induction false} OldestOfEqual(b: seq<Seen>, n: nat)
    requires 0 < n <= |b| && forall i :: 0 <= i < n ==> b[i].at == b[0].at
    ensures Oldest(b, n) == 0
  {
    if n > 1 { OldestOfEqual(b, n - 1); }
  }

  /** The buffer itself. */
  class Buffer {
    const entries: array<Seen>
    var count: nat

    ghost predicate Valid()
      reads this
    {
      entries.Length == CAPACITY && count <= CAPACITY
    }

    ghost function Contents(): seq<Seen>
      requires Valid()
      reads this, entries
    {
      entries[..count]
    }

    constructor ()
      ensures Valid() && fresh(entries) && Contents() == []
    {
      entries := new Seen[CAPACITY](i => Seen(0, 0));
      count := 0;
    }

    /** Compacts in place. */
    method PurgeExpired(now: nat)
      requires Valid()
      modifies this, entries
      ensures Valid() && Contents() == Purge(old(Contents()), now)
    {
      hide Live;
      ghost var was := Contents();
      var dst, src := 0, 0;
      while src < count
        invariant dst <= src <= count == |was| <= entries.Length
        invariant entries[..dst] == Purge(was[..src], now)
        invariant forall k :: src <= k < count ==> entries[k] == was[k]
      {
        assert was[..src + 1][..src] == was[..src];
        if Live(entries[src], now) {
          if dst != src {
            entries[dst] := entries[src];
          }
          dst := dst + 1;
        }
        src := src + 1;
      }
      assert was[..src] == was;
      count := dst;
    }

    method Find(key: nat) returns (found: bool)
      requires Valid()
      ensures found <==> HasKey(Contents(), key)
    {
      for i := 0 to count
        invariant !HasKey(entries[..i], key)
      {
        if entries[i].key == key {
          assert Contents()[i].key == key;
          return true;
        }
      }
      return false;
    }

    method FindOldest() returns (o: nat)
      requires Valid() && 0 < count
      ensures o < count && o == Oldest(Contents(), count)
    {
      o := 0;
      for i := 1 to count
        invariant o < i && o == Oldest(Contents(), i)
      {
        if entries[i].at < entries[o].at {
          o := i;
        }
      }
    }

    method CheckAdd(key: nat, now: nat) returns (duplicate: bool)
      requires Valid()
      modifies this, entries
      ensures Valid() && (duplicate, Contents()) == CheckAndAdd(old(Contents()), key, now)
    {
      hide Purge;
      PurgeExpired(now);
      ghost var p := Contents();
      duplicate := Find(key);
      if duplicate {
        return;
      }
      if count < CAPACITY {
        entries[count] := Seen(key, now);
        count := count + 1;
        assert Contents() == p + [Seen(key, now)];
      } else {
        var o := FindOldest();
        entries[o] := Seen(key, now);
        assert Contents() == p[o := Seen(key, now)];
      }
    }

    method Look(key: nat, now: nat) returns (found: bool)
      requires Valid()
      ensures found <==> Contains(Contents(), key, now)
    {
      for i := 0 to count
        invariant !Contains(entries[..i], key, now)
      {
        if entries[i].key == key && Live(entries[i], now) {
          assert Contents()[i] == entries[i];
          return true;
        }
      }
      return false;
    }
  }
}
