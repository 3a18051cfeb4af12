/**
 * The receiving side of a unicast frame (main/mesh_task.c): the dispatcher's
 * dedup gate with its re-ACK branch, then handle_data's replay gate, delivery
 * and confirmation.
 */
module Receiver {
  import opened Bits
  import opened Dedup
  import G = ReplayGate
  import W = ReplayWindow
  import D = ReplayDeferred

  const BROADCAST: nat := 0xFFFF_FFFF
  const DATA_TYPE: nat := 0x0A
  const FRAG_MAX: int := 4

  /** A direct message under its session key, or any payload under a channel
      key: `open` is the public channel, whose key everybody has; `confirmed`
      tells a message or roll-call reply from a handshake, announce or fragment. */
  datatype Body = Dm(data: seq<char>) | Other(open: bool, chat: bool, sentAt: nat, confirmed: bool)

  /** An authenticated DATA frame; `counter` is its nonce counter. */
  datatype Frame = Frame(src: nat, dest: nat, pkt: nat, counter: nat, body: Body)

  datatype Clock = Clock(ms: nat, s: nat, confident: bool)

  /** `inbox` holds every frame delivered, in order. */
  datatype Rx = Rx(addr: nat, seen: seq<Seen>, delivered: seq<Seen>, gate: G.Gate, inbox: seq<Frame>)

  /** The dispatcher's key: packet id and type, no sender. */
  function DispatchKey(pkt: nat): nat { Xor(pkt, DATA_TYPE * 0x100_0000) }

  /** The delivered record's key. */
  function Key(pkt: nat, src: nat): nat { Xor(pkt, src) }

  /** A payload the reassembler would claim. */
  predicate FragmentShaped(d: seq<char>) {
    |d| >= 4 && 1 < d[1] as int <= FRAG_MAX && d[0] as int < d[1] as int
  }

  /** What handle_data confirms by an ACK and a delivered record; a public
      broadcast is at most answered by a receipt. */
  predicate Storable(f: Frame) {
    match f.body
    case Dm(data) => data != [] && !FragmentShaped(data)
    case Other(open, _, _, confirmed) => confirmed && !(open && f.dest == BROADCAST)
  }

  /** channel_source_is_replay_trustworthy: the payloads that go through the replay gate. */
  predicate Gated(b: Body) { b.Dm? || !b.open }

  function Arrival(f: Frame, c: Clock): G.Rx {
    match f.body
    case Dm(_) => G.Rx(f.src, f.counter, true, 0, c.ms, c.s, c.confident)
    case Other(_, chat, sentAt, _) => G.Rx(f.src, f.counter, chat, sentAt, c.ms, c.s, c.confident)
  }

  predicate Shape(r: Rx) { |r.seen| <= CAPACITY && |r.delivered| <= CAPACITY }

  /** handle_data and confirm_data_delivery: the state after, and whether an ACK goes out. */
  function Handle(r: Rx, f: Frame, c: Clock): (o: (Rx, bool))
    requires Shape(r)
    ensures Shape(o.0)
  {
    var p := if Gated(f.body) then G.Pass(r.gate, Arrival(f, c)) else (true, r.gate);
    if f.src == r.addr then (r, false)
    else if p.0 && Storable(f) then
      (r.(gate := p.1, inbox := r.inbox + [f], delivered := CheckAndAdd(r.delivered, Key(f.pkt, f.src), c.ms).1), true)
    else (r.(gate := p.1), false)
  }

  /** mesh_process_rx_packet for one DATA frame. */
  function Receive(r: Rx, f: Frame, c: Clock): (o: (Rx, bool))
    requires Shape(r)
    ensures Shape(o.0)
  {
    var d := CheckAndAdd(r.seen, DispatchKey(f.pkt), c.ms);
    var r1 := r.(seen := d.1);
    if d.0 then (r1, f.dest == r.addr && Contains(r.delivered, Key(f.pkt, f.src), c.ms))
    else if f.dest == r.addr || (f.dest == BROADCAST && f.body.Other?) then Handle(r1, f, c)
    else (r1, false)
  }

  // --------------------------------------------------------- at most once

  datatype Heard = Data(f: Frame, c: Clock) | Noise(key: nat, ms: nat) | Forget(seen: seq<Seen>, delivered: seq<Seen>)

  /** Anything the dispatcher hears: DATA, or other traffic marking its key seen.
      Its two buffers may also forget, or change in any way whatever. */
  function Hear(r: Rx, h: Heard): (r': Rx)
    requires Shape(r)
    ensures Shape(r')
  {
    match h
    case Data(f, c) => Receive(r, f, c).0
    case Noise(key, ms) => r.(seen := CheckAndAdd(r.seen, key, ms).1)
    case Forget(seen, delivered) => if |seen| <= CAPACITY && |delivered| <= CAPACITY then r.(seen := seen, delivered := delivered) else r
  }

  function HearAll(r: Rx, hs: seq<Heard>): (r': Rx)
    requires Shape(r)
    ensures Shape(r')
    decreases |hs|
  {
    if hs == [] then r else Hear(HearAll(r, hs[..|hs| - 1]), hs[|hs| - 1])
  }

  /** Two copies of one frame: the retransmission stores and resends the same bytes. */
  predicate SameBytes(a: Frame, b: Frame) { a.src == b.src && a.counter == b.counter && a.body == b.body }

  predicate Delivered(r: Rx, f: Frame) { exists i :: 0 <= i < |r.inbox| && SameBytes(r.inbox[i], f) }

  /** No two copies of the frame in the inbox. */
  predicate Once(inbox: seq<Frame>, f: Frame) {
    forall i, j :: 0 <= i < j < |inbox| ==> !(SameBytes(inbox[i], f) && SameBytes(inbox[j], f))
  }

  /** The frame as the gate sees it, the clock aside. */
  function Bare(f: Frame): G.Rx { Arrival(f, Clock(0, 0, false)) }

  /** The frame is put to the replay gate. */
  predicate GateHears(r: Rx, f: Frame, c: Clock) {
    && !Contains(r.seen, DispatchKey(f.pkt), c.ms) && (f.dest == r.addr || (f.dest == BROADCAST && f.body.Other?))
    && f.src != r.addr && Gated(f.body)
  }

  predicate Fits(r: Rx) {
    && Shape(r) && W.TableOk(r.gate.window)
    && (forall i :: 0 <= i < |r.inbox| ==> Storable(r.inbox[i]) && r.inbox[i].src != r.addr)
  }

  /** Tier one knows the frame once it was delivered. */
  predicate Knows(r: Rx, f: Frame) { Fits(r) && (Delivered(r, f) ==> G.SlotKnows(r.gate, Bare(f))) }

  /** After its delivery the frame's sender lost its slot. */
  predicate SlotLost(r: Rx, h: Heard, f: Frame) {
    h.Data? && GateHears(r, h.f, h.c) && Delivered(r, f) && G.TakesSlot(r.gate, Arrival(h.f, h.c), f.src)
  }

  /** After its delivery tier two took a copy of it. */
  predicate Retaken(r: Rx, h: Heard, f: Frame) {
    && h.Data? && GateHears(r, h.f, h.c) && Delivered(r, f)
    && SameBytes(h.f, f) && G.CacheTakes(r.gate, Arrival(h.f, h.c))
  }

  /** What the gate and the inbox become. */
  lemma HeardByGate(r: Rx, f: Frame, c: Clock)
    requires Shape(r)
    ensures var r' := Receive(r, f, c).0;
      && r'.addr == r.addr
      && (GateHears(r, f, c) ==>
          && r'.gate == G.Next(r.gate, Arrival(f, c))
          && r'.inbox == if G.Pass(r.gate, Arrival(f, c)).0 && Storable(f) then r.inbox + [f] else r.inbox)
      && (!GateHears(r, f, c) ==> r'.gate == r.gate)
      && (!GateHears(r, f, c) && Gated(f.body) ==> r'.inbox == r.inbox)
      && (r'.inbox == r.inbox || (r'.inbox == r.inbox + [f] && Storable(f) && f.src != r.addr))
  {
    hide G.Pass, Key, DispatchKey;
    CheckMeaning(r.seen, DispatchKey(f.pkt), c.ms);
    hide CheckAndAdd, Contains;
  }

  // ------------------------------------------------------ which frames arrive

  /** A frame from another node, not seen before. */
  predicate New(r: Rx, f: Frame, c: Clock) { f.src != r.addr && !Contains(r.seen, DispatchKey(f.pkt), c.ms) }

  /** Delivered, acknowledged and recorded, or none of these; seen in either case. */
  predicate Taken(r: Rx, o: (Rx, bool), f: Frame, c: Clock, taken: bool) {
    && o.1 == taken && o.0.addr == r.addr && Contains(o.0.seen, DispatchKey(f.pkt), c.ms)
    && (if taken then o.0.inbox == r.inbox + [f] && Contains(o.0.delivered, Key(f.pkt, f.src), c.ms)
        else o.0.inbox == r.inbox && o.0.delivered == r.delivered)
  }

  /** The replay gate lets it through: tier one takes it and it is no stale chat, or tier two does. */
  predicate Admitted(g: G.Gate, rx: G.Rx) {
    (G.WindowTakes(g, rx) && !(rx.chat && rx.confident && D.Stale(rx.sentAt, rx.nowS))) || G.CacheTakes(g, rx)
  }

  /** A new direct message to this node is delivered, acknowledged and recorded
      exactly if the replay gate admits it as a chat frame without send time, it
      is not empty, and its first two bytes are not those of a fragment: count
      from two to four, index below the count. So any text whose second
      character is above code 4, and any of one to three characters, arrives. */
  lemma DmDelivery(r: Rx, f: Frame, c: Clock)
    requires Shape(r) && W.TableOk(r.gate.window) && New(r, f, c) && f.dest == r.addr && f.body.Dm?
    ensures var d := f.body.data;
      var admitted := Admitted(r.gate, G.Rx(f.src, f.counter, true, 0, c.ms, c.s, c.confident));
      && Taken(r, Receive(r, f, c), f, c,
               admitted && d != [] && !(|d| >= 4 && 2 <= d[1] as int <= 4 && d[0] as int < d[1] as int))
      && (0 < |d| < 4 || (|d| >= 4 && d[1] as int > 4) ==> Taken(r, Receive(r, f, c), f, c, admitted))
  {
    hide G.Pass, G.WindowTakes, G.CacheTakes, D.Stale, Key, DispatchKey;
    CheckMeaning(r.seen, DispatchKey(f.pkt), c.ms);
    CheckMeaning(r.delivered, Key(f.pkt, f.src), c.ms);
    hide CheckAndAdd, Contains;
    G.PassIff(r.gate, Arrival(f, c));
  }

  /** Any other new frame to this node or to all: delivered, acknowledged and
      recorded exactly if its kind is confirmed, it is no public broadcast, and
      it came over the public channel or the replay gate admits it. */
  lemma OtherDelivery(r: Rx, f: Frame, c: Clock)
    requires Shape(r) && W.TableOk(r.gate.window) && New(r, f, c) && (f.dest == r.addr || f.dest == BROADCAST) && f.body.Other?
    ensures var b := f.body;
      Taken(r, Receive(r, f, c), f, c,
            && b.confirmed && !(b.open && f.dest == BROADCAST)
            && (b.open || Admitted(r.gate, G.Rx(f.src, f.counter, b.chat, b.sentAt, c.ms, c.s, c.confident))))
  {
    hide G.Pass, G.WindowTakes, G.CacheTakes, D.Stale, Key, DispatchKey;
    CheckMeaning(r.seen, DispatchKey(f.pkt), c.ms);
    CheckMeaning(r.delivered, Key(f.pkt, f.src), c.ms);
    hide CheckAndAdd, Contains;
    G.PassIff(r.gate, Arrival(f, c));
  }

  /** The dispatcher's key tells packet ids apart, and the delivered record's
      tells apart the packets of one sender and the senders of one packet id. */
  lemma KeysTellApart(pkt: nat, other: nat, src: nat)
    ensures DispatchKey(pkt) == DispatchKey(other) <==> pkt == other
    ensures Key(pkt, src) == Key(other, src) <==> pkt == other
    ensures Key(src, pkt) == Key(src, other) <==> pkt == other
  {
    XorBack(pkt, DATA_TYPE * 0x100_0000);
    XorBack(other, DATA_TYPE * 0x100_0000);
    XorBack(pkt, src);
    XorBack(other, src);
    XorAssociates(src, src, pkt);
    XorAssociates(src, src, other);
    XorSelf(src);
    assert Xor(0, pkt) == pkt && Xor(0, other) == other;
  }

  lemma AppendOnce(inbox: seq<Frame>, g: Frame, f: Frame)
    ensures Once(inbox + [g], f) <==> Once(inbox, f) && !(SameBytes(g, f) && exists i :: 0 <= i < |inbox| && SameBytes(inbox[i], f))
  {
    var more := inbox + [g];
    assert more[|inbox|] == g && forall i :: 0 <= i < |inbox| ==> more[i] == inbox[i];
    if SameBytes(g, f) && exists i :: 0 <= i < |inbox| && SameBytes(inbox[i], f) {
      var i :| 0 <= i < |inbox| && SameBytes(inbox[i], f);
      assert SameBytes(more[i], f) && SameBytes(more[|inbox|], f);
    }
    if !Once(inbox, f) {
      var i, j :| 0 <= i < j < |inbox| && SameBytes(inbox[i], f) && SameBytes(inbox[j], f);
      assert SameBytes(more[i], f) && SameBytes(more[j], f);
    }
  }

  lemma AppendDelivered(r: Rx, r': Rx, g: Frame, f: Frame)
    requires r'.inbox == r.inbox + [g]
    ensures Delivered(r', f) <==> Delivered(r, f) || SameBytes(g, f)
  {
    assert r'.inbox[|r.inbox|] == g;
    if Delivered(r, f) {
      var i :| 0 <= i < |r.inbox| && SameBytes(r.inbox[i], f);
      assert r'.inbox[i] == r.inbox[i];
    }
  }

  /** A frame put to the gate: what is known of f afterwards, and whether it is f again. */
  lemma GateStep(r: Rx, g: Frame, c: Clock, f: Frame)
    requires Knows(r, f) && Gated(f.body) && GateHears(r, g, c) && !SlotLost(r, Data(g, c), f)
    ensures var r' := Receive(r, g, c).0; Knows(r', f) && (Once(r'.inbox, f) <==> Once(r.inbox, f) && !Retaken(r, Data(g, c), f))
  {
    hide G.Pass, G.CacheTakes, G.SlotKnows, G.TakesSlot, W.TableOk, GateHears, Receive, Storable, Once;
    var a, r' := Arrival(g, c), Receive(r, g, c).0;
    HeardByGate(r, g, c);
    G.NextKeepsTableOk(r.gate, a);
    SlotKnowsBare(r.gate, f, Clock(0, 0, false));
    if Delivered(r, f) { G.SlotKept(r.gate, a, Bare(f)); }
    if SameBytes(g, f) {
      SlotKnowsSame(r.gate, a, Bare(f));
      SlotKnowsSame(r'.gate, a, Bare(f));
      if G.Pass(r.gate, a).0 { G.PassLearnsSlot(r.gate, a); }
      if Delivered(r, f) {
        G.KnownPassIff(r.gate, a);
        StorableSame(r, g, f);
      }
    }
    if r'.inbox == r.inbox + [g] {
      AppendOnce(r.inbox, g, f);
      AppendDelivered(r, r', g, f);
    }
  }

  lemma SlotKnowsSame(g: G.Gate, a: G.Rx, b: G.Rx)
    requires a.src == b.src && a.counter == b.counter
    ensures G.SlotKnows(g, a) == G.SlotKnows(g, b)
  {
  }

  lemma SlotKnowsBare(g: G.Gate, f: Frame, c: Clock)
    ensures Arrival(f, c).src == f.src && Arrival(f, c).counter == f.counter
  {
  }

  /** A copy of a delivered frame is storable too. */
  lemma StorableSame(r: Rx, g: Frame, f: Frame)
    requires Fits(r) && Delivered(r, f) && SameBytes(g, f) && Gated(f.body)
    ensures Storable(g)
  {
    var i :| 0 <= i < |r.inbox| && SameBytes(r.inbox[i], f);
    assert Storable(r.inbox[i]);
  }

  /** One thing heard: f is known still, and comes again exactly if tier two takes it. */
  lemma HearStep(r: Rx, h: Heard, f: Frame)
    requires Knows(r, f) && Gated(f.body) && !SlotLost(r, h, f)
    ensures var r' := Hear(r, h); Knows(r', f) && (Once(r'.inbox, f) <==> Once(r.inbox, f) && !Retaken(r, h, f))
  {
    hide CheckAndAdd, Receive, G.SlotKnows, Once, W.TableOk, Storable;
    if h.Data? {
      HeardByGate(r, h.f, h.c);
      if GateHears(r, h.f, h.c) {
        GateStep(r, h.f, h.c, f);
      } else if Hear(r, h).inbox == r.inbox + [h.f] {
        AppendOnce(r.inbox, h.f, f);
        AppendDelivered(r, Hear(r, h), h.f, f);
      }
    }
  }

  /** A receiver that has just started. */
  predicate Fresh(r: Rx) { Shape(r) && r.inbox == [] && W.TableOk(r.gate.window) }

  /** In the run the frame's sender kept its slot from its delivery on. */
  predicate SlotStays(r: Rx, hs: seq<Heard>, f: Frame)
    requires Shape(r)
  {
    forall k :: 0 <= k < |hs| ==> !SlotLost(HearAll(r, hs[..k]), hs[k], f)
  }

  lemma SlotStaysBefore(r: Rx, hs: seq<Heard>, f: Frame)
    requires Shape(r) && hs != [] && SlotStays(r, hs, f)
    ensures SlotStays(r, hs[..|hs| - 1], f) && !SlotLost(HearAll(r, hs[..|hs| - 1]), hs[|hs| - 1], f)
  {
    hide HearAll, SlotLost;
    var before := hs[..|hs| - 1];
    forall k | 0 <= k < |before| ensures !SlotLost(HearAll(r, before[..k]), before[k], f) { assert before[..k] == hs[..k]; }
  }

  lemma {:induction false} KnowsLater(r: Rx, hs: seq<Heard>, f: Frame)
    requires Fresh(r) && Gated(f.body) && SlotStays(r, hs, f)
    ensures Knows(HearAll(r, hs), f)
    decreases |hs|
  {
    hide Hear, SlotStays, SlotLost;
    if hs != [] {
      SlotStaysBefore(r, hs, f);
      KnowsLater(r, hs[..|hs| - 1], f);
      hide Knows;
      HearStep(HearAll(r, hs[..|hs| - 1]), hs[|hs| - 1], f);
    }
  }

  /** The k-th thing heard was such a copy. */
  predicate RetakenAt(r: Rx, hs: seq<Heard>, k: nat, f: Frame)
    requires Shape(r) && k < |hs|
  {
    Retaken(HearAll(r, hs[..k]), hs[k], f)
  }

  predicate RetakenIn(r: Rx, hs: seq<Heard>, f: Frame)
    requires Shape(r)
  {
    exists k :: 0 <= k < |hs| && RetakenAt(r, hs, k, f)
  }

  /** Whatever is heard, in whatever order and however often, and whatever the
      dedup buffers remember: a gated frame whose sender keeps its slot is
      delivered twice exactly when, after its delivery, tier two takes a copy. */
  lemma {:induction false} DeliveredTwiceIff(r: Rx, hs: seq<Heard>, f: Frame)
    requires Fresh(r) && Gated(f.body) && SlotStays(r, hs, f)
    ensures !Once(HearAll(r, hs).inbox, f) <==> RetakenIn(r, hs, f)
    decreases |hs|
  {
    hide Hear, SlotStays, SlotLost, Retaken, Knows, Gated;
    if hs != [] {
      var before, h := hs[..|hs| - 1], hs[|hs| - 1];
      SlotStaysBefore(r, hs, f);
      KnowsLater(r, before, f);
      HearStep(HearAll(r, before), h, f);
      DeliveredTwiceIff(r, before, f);
      RetakenSplits(r, hs, f);
    }
  }

  lemma RetakenSplits(r: Rx, hs: seq<Heard>, f: Frame)
    requires Shape(r) && hs != []
    ensures RetakenIn(r, hs, f) <==> RetakenIn(r, hs[..|hs| - 1], f) || RetakenAt(r, hs, |hs| - 1, f)
  {
    hide RetakenAt;
    var before := hs[..|hs| - 1];
    forall k | 0 <= k < |before| ensures RetakenAt(r, hs, k, f) == RetakenAt(r, before, k, f) { RetakenBefore(r, hs, k, f); }
  }

  lemma RetakenBefore(r: Rx, hs: seq<Heard>, k: nat, f: Frame)
    requires Shape(r) && k < |hs| - 1
    ensures RetakenAt(r, hs, k, f) == RetakenAt(r, hs[..|hs| - 1], k, f)
  {
    hide HearAll, Retaken;
    assert hs[..|hs| - 1][..k] == hs[..k];
  }

  /** The frame was delivered without a record, or lost its record after that. */
  predicate RecordLost(r: Rx, h: Heard, f: Frame) {
    && h.Data? && GateHears(r, h.f, h.c)
    && if Delivered(r, f) then G.TakesRecord(r.gate, Arrival(h.f, h.c), Bare(f))
       else SameBytes(h.f, f) && G.Refuses(r.gate, Arrival(h.f, h.c))
  }

  predicate RecordStays(r: Rx, hs: seq<Heard>, f: Frame)
    requires Shape(r)
  {
    forall k :: 0 <= k < |hs| ==> !RecordLost(HearAll(r, hs[..k]), hs[k], f)
  }

  /** One thing heard keeps the record of a delivered chat frame. */
  lemma RecordStep(r: Rx, h: Heard, f: Frame)
    requires Shape(r) && Gated(f.body) && Bare(f).chat && !RecordLost(r, h, f)
    requires Delivered(r, f) ==> G.HasRecord(r.gate, Bare(f))
    ensures Delivered(Hear(r, h), f) ==> G.HasRecord(Hear(r, h).gate, Bare(f))
  {
    hide CheckAndAdd, Receive, G.Pass, G.TakesRecord, G.Refuses, Storable;
    if h.Data? {
      var a := Arrival(h.f, h.c);
      HeardByGate(r, h.f, h.c);
      if GateHears(r, h.f, h.c) {
        if Delivered(r, f) { G.RecordKept(r.gate, a, Bare(f)); }
        if Hear(r, h).inbox == r.inbox + [h.f] {
          AppendDelivered(r, Hear(r, h), h.f, f);
          if SameBytes(h.f, f) && !Delivered(r, f) && G.Pass(r.gate, a).0 { G.RecordMade(r.gate, a); }
          InboxGrows(r, h.f);
        }
      } else if Hear(r, h).inbox == r.inbox + [h.f] {
        AppendDelivered(r, Hear(r, h), h.f, f);
      }
    }
  }

  lemma InboxGrows(r: Rx, g: Frame)
    ensures r.inbox + [g] != r.inbox
  {
    assert |r.inbox + [g]| == |r.inbox| + 1;
  }

  lemma {:induction false} RecordLater(r: Rx, hs: seq<Heard>, f: Frame)
    requires Fresh(r) && Gated(f.body) && Bare(f).chat && RecordStays(r, hs, f)
    ensures Delivered(HearAll(r, hs), f) ==> G.HasRecord(HearAll(r, hs).gate, Bare(f))
    decreases |hs|
  {
    hide Hear, RecordLost, G.HasRecord, Bare;
    if hs != [] {
      var before := hs[..|hs| - 1];
      forall k | 0 <= k < |before| ensures !RecordLost(HearAll(r, before[..k]), before[k], f) { assert before[..k] == hs[..k]; }
      RecordLater(r, before, f);
      RecordStep(HearAll(r, before), hs[|hs| - 1], f);
    }
  }

  /** So a gated frame is delivered at most once while its sender keeps its slot
      and, for chat, the frame gets and keeps its own record, whatever the
      tables do with everybody else's. */
  lemma DeliveredOnce(r: Rx, hs: seq<Heard>, f: Frame)
    requires Fresh(r) && Gated(f.body) && SlotStays(r, hs, f)
    requires Bare(f).chat ==> RecordStays(r, hs, f)
    ensures Once(HearAll(r, hs).inbox, f)
  {
    hide HearAll, SlotStays, Bare, GateHears, G.HasRecord, Once;
    DeliveredTwiceIff(r, hs, f);
    if k :| 0 <= k < |hs| && RetakenAt(r, hs, k, f) {
      if Bare(f).chat {
        forall m | 0 <= m < |hs[..k]| ensures !RecordLost(HearAll(r, hs[..k][..m]), hs[..k][m], f) { assert hs[..k][..m] == hs[..m]; }
        RecordLater(r, hs[..k], f);
      }
      NotRetaken(HearAll(r, hs[..k]), hs[k], f);
    }
  }

  lemma NotRetaken(r: Rx, h: Heard, f: Frame)
    requires Bare(f).chat ==> G.HasRecord(r.gate, Bare(f)) || !Delivered(r, f)
    ensures !Retaken(r, h, f)
  {
  }

  /** A copy heard after delivery comes when tier two cannot take an undated frame. */
  predicate DayOver(r: Rx, hs: seq<Heard>, f: Frame)
    requires Shape(r)
  {
    forall k :: 0 <= k < |hs| && hs[k].Data? && SameBytes(hs[k].f, f) && Delivered(HearAll(r, hs[..k]), f) ==>
      !hs[k].c.confident || hs[k].c.s > D.TTL_S
  }

  /** A DM needs its sender's slot only, on a clock that is untrusted or more
      than a day past its epoch. */
  lemma DmDeliveredOnce(r: Rx, hs: seq<Heard>, f: Frame)
    requires Fresh(r) && f.body.Dm? && SlotStays(r, hs, f) && DayOver(r, hs, f)
    ensures Once(HearAll(r, hs).inbox, f)
  {
    hide HearAll, SlotStays, GateHears, Once, Delivered;
    DeliveredTwiceIff(r, hs, f);
  }

  // ------------------------------------------------------------- re-ACKs

  /** Every delivered record is of a frame in the inbox. */
  ghost predicate Recorded(r: Rx) {
    forall k :: HasKey(r.delivered, k) ==> exists f :: f in r.inbox && Key(f.pkt, f.src) == k
  }

  lemma ReceiveKeepsRecorded(r: Rx, f: Frame, c: Clock)
    requires Shape(r) && Recorded(r)
    ensures Recorded(Receive(r, f, c).0)
    ensures r.inbox <= Receive(r, f, c).0.inbox
    ensures forall g :: g in Receive(r, f, c).0.inbox ==> g in r.inbox || (g == f && Storable(f) && f.src != r.addr && (f.dest == r.addr || (f.dest == BROADCAST && f.body.Other?)))
  {
    hide G.Pass, Key, DispatchKey;
    var r' := Receive(r, f, c).0;
    CheckMeaning(r.delivered, Key(f.pkt, f.src), c.ms);
    hide CheckAndAdd;
    forall k | HasKey(r'.delivered, k) ensures exists g :: g in r'.inbox && Key(g.pkt, g.src) == k {
      if HasKey(r.delivered, k) {
        var g :| g in r.inbox && Key(g.pkt, g.src) == k;
        assert g in r'.inbox;
      } else {
        assert f in r'.inbox;
      }
    }
  }

  /** Some copy of the frame was delivered. */
  predicate Got(r: Rx, src: nat, pkt: nat) { exists f :: f in r.inbox && f.src == src && f.pkt == pkt }

  /** Exactly when a copy of a frame already delivered is acknowledged again.
      While the dispatcher remembers its id, the delivered record decides. Once
      it has forgotten, the copy is delivered a second time if it meets no gate
      or tier two takes it, and is dropped without an ACK if not. */
  lemma ReAckIff(r: Rx, f: Frame, c: Clock)
    requires Knows(r, f) && f in r.inbox && f.dest == r.addr
    ensures var again := !Gated(f.body) || G.CacheTakes(r.gate, Arrival(f, c));
      var seen := Contains(r.seen, DispatchKey(f.pkt), c.ms);
      && (Receive(r, f, c).1 <==> if seen then Contains(r.delivered, Key(f.pkt, f.src), c.ms) else again)
      && Receive(r, f, c).0.inbox == if seen || !again then r.inbox else r.inbox + [f]
  {
    hide G.Pass, G.CacheTakes, G.SlotKnows, Key, DispatchKey;
    CheckMeaning(r.seen, DispatchKey(f.pkt), c.ms);
    hide CheckAndAdd;
    var i :| 0 <= i < |r.inbox| && r.inbox[i] == f;
    assert Delivered(r, f);
    if Gated(f.body) && !Contains(r.seen, DispatchKey(f.pkt), c.ms) {
      SlotKnowsSame(r.gate, Arrival(f, c), Bare(f));
      G.KnownPassIff(r.gate, Arrival(f, c));
    }
  }

  function PublicReply(): Frame { Frame(1, 9, 3, 0, Other(true, false, 0, true)) }

  /** A public-channel frame for this node is delivered, and confirmed, every
      time the dispatcher does not know its id. */
  lemma PublicDelivered(r: Rx, f: Frame, c: Clock)
    requires Shape(r) && !Gated(f.body) && Storable(f) && f.dest == r.addr != f.src
    ensures var o := Receive(r, f, c);
      && (Contains(r.seen, DispatchKey(f.pkt), c.ms) ==> o.0.inbox == r.inbox)
      && (!Contains(r.seen, DispatchKey(f.pkt), c.ms) ==> o.1 && o.0.inbox == r.inbox + [f])
      && o.0.seen == CheckAndAdd(r.seen, DispatchKey(f.pkt), c.ms).1 && o.0.addr == r.addr
  {
    hide DispatchKey, Key;
    CheckMeaning(r.seen, DispatchKey(f.pkt), c.ms);
    hide CheckAndAdd;
  }

  /** It does happen: a roll-call reply on the public channel, heard again once
      the dispatcher's minute is over, is delivered and confirmed twice. */
  lemma PublicTwice(r: Rx, c: Clock, later: Clock)
    requires Fresh(r) && r.addr == 9 && r.seen == [] && later.ms == c.ms + EXPIRY_MS
    ensures var hs := [Data(PublicReply(), c), Data(PublicReply(), later)];
      && HearAll(r, hs).inbox == [PublicReply(), PublicReply()]
      && Receive(r, PublicReply(), c).1 && Receive(Hear(r, hs[0]), PublicReply(), later).1
  {
    hide DispatchKey, Receive, CheckAndAdd, Contains;
    var f := PublicReply();
    var hs := [Data(f, c), Data(f, later)];
    var r1 := Hear(r, hs[0]);
    PublicDelivered(r, f, c);
    OneSeen(DispatchKey(3), c.ms, later.ms);
    PublicDelivered(r1, f, later);
    assert hs[..1] == [hs[0]] && hs[..1][..0] == [];
    assert HearAll(r, hs[..1]) == r1;
  }

  function Chatter(key: nat, n: nat, ms: nat): seq<Heard> { seq(n, i requires 0 <= i < n => Noise(key + 1 + i, ms)) }

  lemma {:induction false} ChatterFills(r: Rx, key: nat, n: nat, ms: nat)
    requires Shape(r) && r.seen == Burst(key, 1, ms) && n < CAPACITY
    ensures HearAll(r, Chatter(key, n, ms)) == r.(seen := Burst(key, n + 1, ms))
  {
    hide CheckAndAdd;
    var hs := Chatter(key, n, ms);
    if n > 0 {
      assert hs[..n - 1] == Chatter(key, n - 1, ms);
      ChatterFills(r, key, n - 1, ms);
      BurstStep(key, n, ms);
    }
  }

  lemma ChatterForgets(r: Rx, key: nat, ms: nat)
    requires Shape(r) && r.seen == Burst(key, 1, ms)
    ensures var r' := HearAll(r, Chatter(key, CAPACITY, ms));
      r' == r.(seen := r'.seen) && Shape(r') && !HasKey(r'.seen, key)
  {
    hide CheckAndAdd;
    var hs := Chatter(key, CAPACITY, ms);
    assert hs[..CAPACITY - 1] == Chatter(key, CAPACITY - 1, ms);
    ChatterFills(r, key, CAPACITY - 1, ms);
    BurstStep(key, CAPACITY, ms);
  }

  /** A lost re-ACK: 256 other frames within the moment of delivery, and the
      copy gets no ACK although its delivered record is live. */
  lemma LostReAck(r: Rx, c: Clock)
    requires Fresh(r) && r.addr == 9 && r.seen == [] && r.delivered == []
    requires !r.gate.window[0].used && !c.confident
    ensures var f := NodeOnesFrame();
      var r1 := Hear(r, Data(f, c));
      var r2 := HearAll(r1, Chatter(DispatchKey(3), CAPACITY, c.ms));
      && r2.inbox == [f] && Contains(r2.delivered, Key(3, 1), c.ms)
      && Receive(r2, f, c).0.inbox == [f] && !Receive(r2, f, c).1
  {
    hide Hear, HearAll, Handle, Contains, DispatchKey, CheckAndAdd, G.Pass;
    var f := NodeOnesFrame();
    var r1 := Hear(r, Data(f, c));
    FirstFrameDelivered(r, c);
    ChatterForgets(r1, DispatchKey(3), c.ms);
    var r2 := HearAll(r1, Chatter(DispatchKey(3), CAPACITY, c.ms));
    NoKeyNoContains(r2.seen, DispatchKey(3), c.ms);
    CheckMeaning(r2.seen, DispatchKey(3), c.ms);
    G.SecondCopyAtOnce(r.gate, Arrival(f, c));
    DroppedByGate(r2.(seen := CheckAndAdd(r2.seen, DispatchKey(3), c.ms).1), f, c);
    assert Key(3, 1) == 2;
  }

  lemma DroppedByGate(r: Rx, f: Frame, c: Clock)
    requires Shape(r) && Gated(f.body) && !G.Pass(r.gate, Arrival(f, c)).0
    ensures Handle(r, f, c).0.inbox == r.inbox && !Handle(r, f, c).1
  {
    hide G.Pass, CheckAndAdd;
  }

  lemma NoKeyNoContains(b: seq<Seen>, key: nat, now: nat)
    requires !HasKey(b, key)
    ensures !Contains(b, key, now)
  {
  }

  /** The re-ACK branch fires for a packet of which no copy was delivered. */
  predicate Misleads(r: Rx, f: Frame, c: Clock) {
    && f.dest == r.addr && !Got(r, f.src, f.pkt)
    && Contains(r.seen, DispatchKey(f.pkt), c.ms) && Contains(r.delivered, Key(f.pkt, f.src), c.ms)
  }

  /** Exactly when an ACK goes out for a frame never delivered: its packet id
      counts as seen, and a live record has its key, which is then a record of
      another sender's frame. */
  lemma FalseAckIff(r: Rx, f: Frame, c: Clock)
    requires Shape(r) && Recorded(r)
    ensures var o := Receive(r, f, c); o.1 && !Got(o.0, f.src, f.pkt) <==> Misleads(r, f, c)
    ensures Misleads(r, f, c) ==> exists g :: g in r.inbox && Key(g.pkt, g.src) == Key(f.pkt, f.src) && g.src != f.src
  {
    hide G.Pass, DispatchKey;
    CheckMeaning(r.seen, DispatchKey(f.pkt), c.ms);
    var o := Receive(r, f, c);
    if o.0.inbox == r.inbox + [f] { assert f in o.0.inbox; }
    GotStays(r, o.0, f.src, f.pkt);
    if Misleads(r, f, c) {
      assert HasKey(r.delivered, Key(f.pkt, f.src));
      var g :| g in r.inbox && Key(g.pkt, g.src) == Key(f.pkt, f.src);
      if g.src == f.src { XorInjective(g.pkt, f.pkt, f.src); }
    }
  }

  lemma GotStays(r: Rx, r': Rx, src: nat, pkt: nat)
    requires r.inbox <= r'.inbox
    ensures Got(r, src, pkt) ==> Got(r', src, pkt)
  {
    if Got(r, src, pkt) {
      var f :| f in r.inbox && f.src == src && f.pkt == pkt;
      assert f in r'.inbox;
    }
  }

  function NodeOnesFrame(): Frame { Frame(1, 9, 3, 0, Dm("hi")) }

  function NodeThreesFrame(): Frame { Frame(3, 9, 1, 0, Dm("yo")) }

  /** It does happen: node 9 delivers packet 3 of node 1, hears some packet 1,
      and then confirms packet 1 of node 3, which it has never delivered. */
  lemma FalseAck(r: Rx, c: Clock)
    requires Fresh(r) && r.addr == 9 && r.seen == [] && r.delivered == []
    requires !r.gate.window[0].used && !c.confident
    ensures var r' := HearAll(r, [Data(NodeOnesFrame(), c), Noise(DispatchKey(1), c.ms)]);
      var o := Receive(r', NodeThreesFrame(), c);
      o.1 && !Got(o.0, 3, 1)
  {
    hide Hear, DispatchKey, Receive;
    var hs := [Data(NodeOnesFrame(), c), Noise(DispatchKey(1), c.ms)];
    FirstFrameDelivered(r, c);
    var r1 := Hear(r, hs[0]);
    assert hs[..1][..0] == [] && hs[..1][0] == hs[0];
    assert HearAll(r, hs[..1]) == r1;
    SecondFrameConfirmed(r1, c);
  }

  lemma FirstFrameDelivered(r: Rx, c: Clock)
    requires Fresh(r) && r.addr == 9 && r.seen == [] && r.delivered == []
    requires !r.gate.window[0].used && !c.confident
    ensures var r1 := Hear(r, Data(NodeOnesFrame(), c));
      && r1.addr == 9 && r1.inbox == [NodeOnesFrame()] && Contains(r1.delivered, 2, c.ms)
      && r1.seen == Burst(DispatchKey(3), 1, c.ms) && r1.gate == G.Next(r.gate, Arrival(NodeOnesFrame(), c))
      && G.Pass(r.gate, Arrival(NodeOnesFrame(), c)).0
  {
    hide G.Pass, DispatchKey;
    var f := NodeOnesFrame();
    G.PassIff(r.gate, Arrival(f, c));
    assert Key(3, 1) == 2;
    OneSeen(DispatchKey(3), c.ms, c.ms + EXPIRY_MS);
    CheckMeaning(r.seen, DispatchKey(3), c.ms);
    CheckMeaning(r.delivered, 2, c.ms);
    hide CheckAndAdd;
  }

  lemma SecondFrameConfirmed(r1: Rx, c: Clock)
    requires Shape(r1) && r1.addr == 9 && r1.inbox == [NodeOnesFrame()] && Contains(r1.delivered, 2, c.ms)
    ensures var r2 := Hear(r1, Noise(DispatchKey(1), c.ms));
      var o := Receive(r2, NodeThreesFrame(), c);
      o.1 && !Got(o.0, 3, 1)
  {
    hide CheckAndAdd, Contains, G.Pass, DispatchKey;
    assert Key(1, 3) == 2;
    var r2 := Hear(r1, Noise(DispatchKey(1), c.ms));
    CheckMeaning(r1.seen, DispatchKey(1), c.ms);
    CheckMeaning(r2.seen, DispatchKey(1), c.ms);
  }
}
