/**
 * The receiving side as the firmware keeps it: two dedup buffers and two replay
 * tables, each changed in place as a frame goes through the dispatcher and
 * handle_data (main/mesh_task.c). Every method leaves exactly the state the
 * matching function of `Receiver` or `ReplayGate` gives.
 */
module ReceiverTables {
  import opened Receiver
  import Dedup
  import G = ReplayGate
  import W = ReplayWindow
  import D = ReplayDeferred

  class Intake {
    const addr: nat
    const seen: Dedup.Buffer
    const delivered: Dedup.Buffer
    const window: W.ReplayTable
    const cache: D.DeferredCache
    ghost var inbox: seq<Frame>

    ghost predicate Valid()
      reads this, seen, delivered, window, window.slots, cache
    {
      && seen.Valid() && delivered.Valid() && window.Valid() && cache.Valid()
      && seen != delivered && seen.entries != delivered.entries
    }

    ghost function Gate(): G.Gate
      reads this, window, window.slots, cache, cache.records
      requires window.Valid() && cache.Valid()
    {
      G.Gate(window.slots[..], cache.records[..], window.evictions, cache.evictions, cache.denied)
    }

    ghost function Abs(): (r: Rx)
      reads this, seen, seen.entries, delivered, delivered.entries, window, window.slots, cache, cache.records
      requires Valid()
      ensures Shape(r)
    {
      Rx(addr, seen.Contents(), delivered.Contents(), Gate(), inbox)
    }

    constructor (self: nat)
      ensures Valid() && Fresh(Abs()) && Abs().addr == self && Abs().delivered == []
    {
      addr := self;
      seen := new Dedup.Buffer();
      delivered := new Dedup.Buffer();
      window := new W.ReplayTable();
      cache := new D.DeferredCache();
      inbox := [];
    }

    /** The replay gate of handle_data. */
    method PassGate(a: G.Rx) returns (ok: bool)
      requires Valid()
      modifies window, window.slots, cache, cache.records
      ensures Valid() && (ok, Gate()) == G.Pass(old(Gate()), a)
    {
      hide W.Check, W.TableOk, D.TryAccept, D.MarkSeen, D.Stale, W.Recycles;
      var v := window.CheckAndAdd(a.src, a.counter, a.nowMs);
      if v != W.Accept && v != W.BelowWindow {
        return false;
      }
      if v == W.Accept {
        if !a.chat {
          return true;
        }
        if a.confident && D.Stale(a.sentAt, a.nowS) {
          return false;
        }
        cache.Mark(a.src, a.counter, a.nowS);
        return true;
      }
      if !a.chat {
        return false;
      }
      ok := cache.Accept(a.src, a.counter, a.sentAt, a.nowS, a.confident);
    }

    /** handle_data with confirm_data_delivery; true when an ACK goes out. */
    method HandleData(f: Frame, c: Clock) returns (ack: bool)
      requires Valid()
      modifies this`inbox, delivered, delivered.entries, window, window.slots, cache, cache.records
      ensures Valid() && (Abs(), ack) == Handle(old(Abs()), f, c)
    {
      hide G.Pass, Dedup.CheckAndAdd, Key;
      if f.src == addr {
        return false;
      }
      var ok := true;
      if Gated(f.body) {
        ok := PassGate(Arrival(f, c));
      }
      ack := ok && Storable(f);
      if ack {
        inbox := inbox + [f];
        var _ := delivered.CheckAdd(Key(f.pkt, f.src), c.ms);
      }
    }

    /** mesh_process_rx_packet for a DATA frame. */
    method HearData(f: Frame, c: Clock) returns (ack: bool)
      requires Valid()
      modifies this`inbox, seen, seen.entries, delivered, delivered.entries, window, window.slots, cache, cache.records
      ensures Valid() && (Abs(), ack) == Receive(old(Abs()), f, c)
    {
      hide Handle, Dedup.CheckAndAdd, Dedup.Contains, Key, DispatchKey;
      var duplicate := seen.CheckAdd(DispatchKey(f.pkt), c.ms);
      if duplicate {
        if f.dest == addr {
          ack := delivered.Look(Key(f.pkt, f.src), c.ms);
          return;
        }
        return false;
      }
      if f.dest == addr || (f.dest == BROADCAST && f.body.Other?) {
        ack := HandleData(f, c);
        return;
      }
      ack := false;
    }
  }
}
