/**
 * Sender, receivers and the network between them. Every node runs the send
 * pipeline and the receiver; any frame or ACK ever put on the air may be heard
 * by any node any number of times, in any order, or never.
 *
 * The theorems: a message row marked DELIVERED means the destination really
 * delivered the frame that row records, with the text the user wrote; and no
 * node delivers one DM twice.
 */
module Network {
  import opened MsgStore
  import P = Pipeline
  import I = PipelineInvariant
  import K = PipelineSticky
  import R = Receiver
  import Bits
  import Dedup
  import G = ReplayGate
  import W = ReplayWindow

  datatype Node = Node(p: P.State, rx: R.Rx)

  /** An authenticated ACK: `src` confirms packet `pkt` of `dest`. */
  datatype AckFrame = AckFrame(src: nat, dest: nat, pkt: nat)

  /** What a packet is sealed with once, before its first transmission: its
      nonce counter and, for a frame that is no DM, its payload's kind.
      Retransmissions and relays repeat the bytes. */
  datatype Seal = Seal(counter: nat, open: bool, chat: bool, sentAt: nat, confirmed: bool)

  datatype Sys = Sys(nodes: map<nat, Node>, acks: set<AckFrame>, seal: (nat, nat) -> Seal)

  /** The DM frame was transmitted by the node. */
  ghost predicate SentDm(p: P.State, dest: nat, pkt: nat, data: seq<char>) {
    exists u :: P.Transmitted(u, pkt, dest, data) in p.log
  }

  function Payload(k: Seal): R.Body { R.Other(k.open, k.chat, k.sentAt, k.confirmed) }

  /** A DATA frame some node has put on the air. */
  ghost predicate OnAir(sys: Sys, f: R.Frame) {
    && f.src in sys.nodes && f.counter == sys.seal(f.src, f.pkt).counter
    && if f.body.Dm? then SentDm(sys.nodes[f.src].p, f.dest, f.pkt, f.body.data)
       else f.body == Payload(sys.seal(f.src, f.pkt)) && P.OtherSent(f.pkt, f.dest) in sys.nodes[f.src].p.log
  }

  datatype Step =
    | Local(a: nat, step: P.Step)
    | HearData(b: nat, f: R.Frame, c: R.Clock)
    | HearNoise(b: nat, key: nat, ms: nat)
    | HearAck(a: nat, ack: AckFrame)

  ghost predicate Wf(sys: Sys) {
    forall a :: a in sys.nodes ==> P.Shape(sys.nodes[a].p) && R.Shape(sys.nodes[a].rx)
  }

  /** A node hears a DATA frame: its receiver runs, and a delivered DM is stored. */
  function Take(n: Node, f: R.Frame, c: R.Clock): (n': Node)
    requires P.Shape(n.p) && R.Shape(n.rx)
    ensures P.Shape(n'.p) && R.Shape(n'.rx)
  {
    var rx := R.Receive(n.rx, f, c).0;
    Node(if rx.inbox != n.rx.inbox && f.body.Dm? then P.Do(n.p, P.ReceiveStep(f.src, f.body.data, c.s)) else n.p, rx)
  }

  predicate NodeWf(n: Node) { P.Shape(n.p) && R.Shape(n.rx) }

  /** One node of the system changed. */
  ghost function Put(sys: Sys, a: nat, n: Node): (r: Sys)
    requires Wf(sys) && a in sys.nodes && NodeWf(n)
    ensures Wf(r) && r.nodes.Keys == sys.nodes.Keys
  {
    sys.(nodes := sys.nodes[a := n])
  }

  /** A node's own pipeline makes a step. */
  function Stepped(n: Node, st: P.Step): (n': Node)
    requires NodeWf(n)
    ensures NodeWf(n')
  {
    n.(p := P.Do(n.p, st))
  }

  ghost function Do(sys: Sys, step: Step): (r: Sys)
    requires Wf(sys)
    ensures Wf(r) && r.nodes.Keys == sys.nodes.Keys
  {
    match step
    case Local(a, st) => if a in sys.nodes && !st.AckStep? then Put(sys, a, Stepped(sys.nodes[a], st)) else sys
    case HearData(b, f, c) =>
      if b in sys.nodes && OnAir(sys, f) then
        var n := sys.nodes[b];
        Put(sys, b, Take(n, f, c)).(acks := sys.acks + (if R.Receive(n.rx, f, c).1 then {AckFrame(b, f.src, f.pkt)} else {}))
      else sys
    case HearNoise(b, key, ms) =>
      if b in sys.nodes then
        var n := sys.nodes[b];
        Put(sys, b, n.(rx := n.rx.(seen := Dedup.CheckAndAdd(n.rx.seen, key, ms).1)))
      else sys
    case HearAck(a, ack) =>
      if a in sys.nodes && ack in sys.acks && ack.dest == a then Put(sys, a, Stepped(sys.nodes[a], P.AckStep(ack.pkt)))
      else sys
  }

  ghost function Run(sys: Sys, steps: seq<Step>): (r: Sys)
    requires Wf(sys)
    ensures Wf(r) && r.nodes.Keys == sys.nodes.Keys
    decreases |steps|
  {
    if steps == [] then sys else Do(Run(sys, steps[..|steps| - 1]), steps[|steps| - 1])
  }

  // ----------------------------------------------------------- one hearing

  /** The replay gate admits the DM, and it is neither empty nor shaped like a fragment. */
  predicate Arrives(rx: R.Rx, f: R.Frame, c: R.Clock)
    requires f.body.Dm?
  {
    var d := f.body.data;
    && R.Admitted(rx.gate, G.Rx(f.src, f.counter, true, 0, c.ms, c.s, c.confident)) && d != []
    && !(|d| >= 4 && 2 <= d[1] as int <= 4 && d[0] as int < d[1] as int)
  }

  /** The node's store ends in an incoming row with the frame's sender and text, and its inbox in the frame. */
  predicate Kept(n: Node, n': Node, f: R.Frame, c: R.Clock)
    requires f.body.Dm?
  {
    && n'.p.store != [] && n'.rx.inbox == n.rx.inbox + [f]
    && n'.p.store[|n'.p.store| - 1] == Row(f.src, n.p.nextUid, false, true, NoStatus, 0, c.s, Clip(f.body.data))
  }

  lemma ReceiveStores(p: P.State, peer: nat, text: seq<char>, nowS: nat)
    requires P.Shape(p)
    ensures var rows := P.Do(p, P.ReceiveStep(peer, text, nowS)).store;
      rows != [] && rows[|rows| - 1] == Row(peer, p.nextUid, false, true, NoStatus, 0, nowS, Clip(text))
  {
  }

  lemma TakeDm(n: Node, f: R.Frame, c: R.Clock)
    requires NodeWf(n) && f.body.Dm? && f.dest == n.rx.addr && R.New(n.rx, f, c) && W.TableOk(n.rx.gate.window)
    ensures var n' := Take(n, f, c);
      && R.Receive(n.rx, f, c).1 == Arrives(n.rx, f, c)
      && (if Arrives(n.rx, f, c) then Kept(n, n', f, c) else n'.p == n.p && n'.rx.inbox == n.rx.inbox)
  {
    hide R.Receive, R.Admitted, R.New, W.TableOk, P.Do, Dedup.Contains, R.Key, R.DispatchKey;
    R.DmDelivery(n.rx, f, c);
    ReceiveStores(n.p, f.src, f.body.data, c.s);
  }

  /** A DM frame on the air that its destination hears as new: if it arrives, the
      node's store ends in a row with its sender and text and an ACK for it is on
      the air; if not, the node's pipeline and the air are as before. */
  lemma DmArrives(sys: Sys, b: nat, f: R.Frame, c: R.Clock)
    requires Wf(sys) && b in sys.nodes && OnAir(sys, f) && f.body.Dm? && f.dest == sys.nodes[b].rx.addr
    requires R.New(sys.nodes[b].rx, f, c) && W.TableOk(sys.nodes[b].rx.gate.window)
    ensures var n, sys' := sys.nodes[b], Do(sys, HearData(b, f, c));
      var n' := sys'.nodes[b];
      if Arrives(n.rx, f, c) then Kept(n, n', f, c) && sys'.acks == sys.acks + {AckFrame(b, f.src, f.pkt)}
      else n'.p == n.p && n'.rx.inbox == n.rx.inbox && sys'.acks == sys.acks
  {
    hide R.Receive, OnAir, R.New, W.TableOk, Take, Kept, Arrives, P.Shape, R.Shape;
    TakeDm(sys.nodes[b], f, c);
  }

  // ----------------------------------------------------------- the invariant

  /** The peer holds the very frame the row records. */
  ghost predicate Confirmed(sys: Sys, a: nat, m: Row) {
    && a in sys.nodes && m.peer in sys.nodes && m.uid in sys.nodes[a].p.book
    && exists f :: f in sys.nodes[m.peer].rx.inbox && f.src == a && f.dest == m.peer && f.pkt == m.pkt
         && f.body == R.Dm(sys.nodes[a].p.book[m.uid].data)
  }

  /** Frames this receiver handles: unicast to it, or a broadcast. */
  predicate For(a: nat, f: R.Frame) { f.dest == a || (f.dest == R.BROADCAST && f.body.Other?) }

  ghost predicate NodeBase(sys: Sys, a: nat)
    requires a in sys.nodes
  {
    var n := sys.nodes[a];
    && I.Inv(I.Boot(), n.p) && R.Shape(n.rx) && R.Recorded(n.rx) && n.rx.addr == a
    && (forall f :: f in n.rx.inbox ==> OnAir(sys, f) && For(a, f) && f.src != a)
  }

  /** What holds whatever collides: only frames really sent are delivered. */
  ghost predicate Base(sys: Sys) { forall a :: a in sys.nodes ==> NodeBase(sys, a) }

  ghost predicate RowsTrue(sys: Sys, a: nat)
    requires a in sys.nodes
  {
    forall m :: m in sys.nodes[a].p.store && m.status == Delivered ==> Confirmed(sys, a, m)
  }

  /** An ACK is for a frame its sender delivered, or for a frame that was no DM. */
  ghost predicate AckTrue(sys: Sys, k: AckFrame) {
    && k.src in sys.nodes && k.dest in sys.nodes
    && (R.Got(sys.nodes[k.src].rx, k.dest, k.pkt) || exists d :: P.OtherSent(k.pkt, d) in sys.nodes[k.dest].p.log)
  }

  ghost predicate Sound(sys: Sys) {
    && Base(sys)
    && (forall a :: a in sys.nodes ==> RowsTrue(sys, a))
    && (forall k :: k in sys.acks ==> AckTrue(sys, k))
  }

  lemma BaseWf(sys: Sys)
    requires Base(sys)
    ensures Wf(sys)
  {
    forall a | a in sys.nodes ensures P.Shape(sys.nodes[a].p) && R.Shape(sys.nodes[a].rx) {
      assert NodeBase(sys, a);
    }
  }

  /** No DM sent to a node shares its delivered-record key with a frame of
      another sender that the node has delivered. */
  ghost predicate KeysApart(sys: Sys) {
    forall b, f, g :: b in sys.nodes && OnAir(sys, f) && f.body.Dm? && f.dest == b && g in sys.nodes[b].rx.inbox ==>
      R.Key(f.pkt, f.src) != R.Key(g.pkt, g.src) || f.src == g.src
  }

  // ------------------------------------------------------------ monotonicity

  /** What one node had is still there. */
  predicate NodeGrows(n: Node, n': Node) {
    I.Ahead(I.Now(n.p), n'.p) && n.rx.inbox <= n'.rx.inbox
  }

  /** One node changed, and only by growing. */
  ghost predicate Grows(sys: Sys, sys': Sys, a: nat) {
    && a in sys.nodes && a in sys'.nodes && sys'.nodes == sys.nodes[a := sys'.nodes[a]] && sys'.seal == sys.seal
    && NodeGrows(sys.nodes[a], sys'.nodes[a])
  }

  lemma LogStays(sys: Sys, sys': Sys, a: nat, b: nat, e: P.Event)
    requires Grows(sys, sys', a) && b in sys.nodes && e in sys.nodes[b].p.log
    ensures e in sys'.nodes[b].p.log
  {
  }

  lemma OnAirStays(sys: Sys, sys': Sys, a: nat, f: R.Frame)
    requires Grows(sys, sys', a) && OnAir(sys, f)
    ensures OnAir(sys', f)
  {
    var p := sys.nodes[f.src].p;
    if f.body.Dm? {
      var u :| P.Transmitted(u, f.pkt, f.dest, f.body.data) in p.log;
      LogStays(sys, sys', a, f.src, P.Transmitted(u, f.pkt, f.dest, f.body.data));
    } else {
      LogStays(sys, sys', a, f.src, P.OtherSent(f.pkt, f.dest));
    }
  }

  lemma ConfirmedStays(sys: Sys, sys': Sys, a: nat, b: nat, m: Row)
    requires Grows(sys, sys', a) && Confirmed(sys, b, m)
    ensures Confirmed(sys', b, m)
  {
    var f :| f in sys.nodes[m.peer].rx.inbox && f.src == b && f.dest == m.peer && f.pkt == m.pkt
      && f.body == R.Dm(sys.nodes[b].p.book[m.uid].data);
    assert f in sys'.nodes[m.peer].rx.inbox;
  }

  lemma AckStays(sys: Sys, sys': Sys, a: nat, k: AckFrame)
    requires Grows(sys, sys', a) && AckTrue(sys, k)
    ensures AckTrue(sys', k)
  {
    if R.Got(sys.nodes[k.src].rx, k.dest, k.pkt) {
      var f :| f in sys.nodes[k.src].rx.inbox && f.src == k.dest && f.pkt == k.pkt;
      assert f in sys'.nodes[k.src].rx.inbox;
    } else {
      var d :| P.OtherSent(k.pkt, d) in sys.nodes[k.dest].p.log;
      LogStays(sys, sys', a, k.dest, P.OtherSent(k.pkt, d));
    }
  }

  /** It is enough to check the node that changed. */
  lemma BaseByOne(sys: Sys, sys': Sys, a: nat)
    requires Base(sys) && Grows(sys, sys', a) && NodeBase(sys', a)
    ensures Base(sys')
  {
    hide OnAir, NodeGrows;
    forall b | b in sys'.nodes ensures NodeBase(sys', b) {
      if b != a {
        assert NodeBase(sys, b);
        forall f | f in sys.nodes[b].rx.inbox ensures OnAir(sys', f) { OnAirStays(sys, sys', a, f); }
      }
    }
  }

  /** ... and the rows it newly shows as delivered, and the new ACKs. */
  lemma SoundByOne(sys: Sys, sys': Sys, a: nat)
    requires Sound(sys) && Base(sys') && Grows(sys, sys', a)
    requires forall m :: m in sys'.nodes[a].p.store && m.status == Delivered ==> m in sys.nodes[a].p.store || Confirmed(sys', a, m)
    requires forall k :: k in sys'.acks ==> k in sys.acks || AckTrue(sys', k)
    ensures Sound(sys')
  {
    hide Base, Confirmed, AckTrue, NodeGrows;
    forall b, m | b in sys'.nodes && m in sys'.nodes[b].p.store && m.status == Delivered ensures Confirmed(sys', b, m) {
      assert RowsTrue(sys, b);
      if m in sys.nodes[b].p.store { ConfirmedStays(sys, sys', a, b, m); }
    }
    forall k | k in sys'.acks ensures AckTrue(sys', k) {
      if k in sys.acks { AckStays(sys, sys', a, k); }
    }
  }

  // ---------------------------------------------------------------- the steps

  /** A step that is no ACK makes no row DELIVERED. */
  lemma NothingDelivered(p: P.State, st: P.Step, m: Row)
    requires P.Shape(p) && !st.AckStep? && m in P.Do(p, st).store && m.status == Delivered
    ensures m in p.store
  {
    hide P.Do;
    K.DoLater(p, st);
    var p' := P.Do(p, st);
    var none: set<nat> := {};
    var d: nat :| K.Aged(p.store, p'.store, p.cap, d, none, K.EndedBy(p, st));
    var k :| 0 <= k < |p'.store| && p'.store[k] == m;
    assert k < |p.store| - d && p'.store[k] == p.store[k + d];
  }

  lemma PipelineStepGrows(n: Node, st: P.Step)
    requires I.Inv(I.Boot(), n.p)
    ensures I.Inv(I.Boot(), P.Do(n.p, st)) && I.Ahead(I.Now(n.p), P.Do(n.p, st))
  {
    hide P.Do;
    I.DoKeeps(I.Boot(), n.p, st);
    I.NowInv(I.Boot(), n.p);
    I.DoKeeps(I.Now(n.p), n.p, st);
  }

  /** A pipeline step of one node. */
  lemma SteppedBase(sys: Sys, sys': Sys, a: nat, st: P.Step)
    requires Base(sys) && Wf(sys) && a in sys.nodes && sys' == Put(sys, a, Stepped(sys.nodes[a], st))
    ensures Grows(sys, sys', a) && Base(sys')
  {
    hide P.Do, I.Inv, I.Ahead, OnAir;
    var n := sys.nodes[a];
    assert NodeBase(sys, a);
    PipelineStepGrows(n, st);
    assert Grows(sys, sys', a);
    forall f | f in n.rx.inbox ensures OnAir(sys', f) { OnAirStays(sys, sys', a, f); }
    BaseByOne(sys, sys', a);
  }

  lemma LocalSound(sys: Sys, a: nat, st: P.Step)
    requires Sound(sys) && Wf(sys) && a in sys.nodes && !st.AckStep?
    ensures Sound(Do(sys, Local(a, st)))
  {
    hide P.Do, Base, Confirmed, AckTrue, Grows, RowsTrue;
    var sys' := Do(sys, Local(a, st));
    SteppedBase(sys, sys', a, st);
    forall m | m in sys'.nodes[a].p.store && m.status == Delivered ensures m in sys.nodes[a].p.store {
      NothingDelivered(sys.nodes[a].p, st, m);
    }
    SoundByOne(sys, sys', a);
  }

  lemma TakeGrows(sys: Sys, b: nat, f: R.Frame, c: R.Clock)
    requires Base(sys) && Wf(sys) && b in sys.nodes
    ensures var n, n' := sys.nodes[b], Take(sys.nodes[b], f, c);
      && NodeGrows(n, n') && I.Inv(I.Boot(), n'.p) && R.Recorded(n'.rx) && n'.rx.addr == b
      && (forall m :: m in n'.p.store && m.status == Delivered ==> m in n.p.store)
      && (forall g :: g in n'.rx.inbox ==> g in n.rx.inbox || (g == f && For(b, f) && f.src != b))
  {
    hide P.Do, I.Inv, I.Ahead, R.Handle, R.Recorded, Dedup.CheckAndAdd;
    assert NodeBase(sys, b);
    var n := sys.nodes[b];
    R.ReceiveKeepsRecorded(n.rx, f, c);
    SelfAhead(n.p);
    AddrStays(n.rx, f, c);
    var n' := Take(n, f, c);
    if f.body.Dm? {
      var st := P.ReceiveStep(f.src, f.body.data, c.s);
      PipelineStepGrows(n, st);
      forall m | m in P.Do(n.p, st).store && m.status == Delivered ensures m in n.p.store { NothingDelivered(n.p, st, m); }
    }
  }

  lemma SelfAhead(p: P.State)
    ensures I.Ahead(I.Now(p), p)
  {
  }

  lemma AddrStays(r: R.Rx, f: R.Frame, c: R.Clock)
    requires R.Shape(r)
    ensures R.Receive(r, f, c).0.addr == r.addr
  {
  }

  lemma HearDataBase(sys: Sys, b: nat, f: R.Frame, c: R.Clock)
    requires Base(sys) && Wf(sys) && b in sys.nodes && OnAir(sys, f)
    ensures Grows(sys, Do(sys, HearData(b, f, c)), b) && Base(Do(sys, HearData(b, f, c)))
  {
    hide Take, R.Receive, I.Inv, R.Recorded, NodeGrows, OnAir, For;
    var sys' := Do(sys, HearData(b, f, c));
    TakeGrows(sys, b, f, c);
    assert Grows(sys, sys', b);
    assert NodeBase(sys, b);
    forall g | g in sys'.nodes[b].rx.inbox ensures OnAir(sys', g) && For(b, g) && g.src != b { OnAirStays(sys, sys', b, g); }
    BaseByOne(sys, sys', b);
  }

  /** The step is the hearing of a DM that the re-ACK branch confirms although
      no copy of it was delivered. */
  ghost predicate Misled(sys: Sys, step: Step) {
    && step.HearData? && step.b in sys.nodes && OnAir(sys, step.f) && step.f.body.Dm?
    && R.Misleads(sys.nodes[step.b].rx, step.f, step.c)
  }

  /** An ACK that goes out is true, if the re-ACK branch was not misled. */
  lemma AckOutTrue(sys: Sys, b: nat, f: R.Frame, c: R.Clock)
    requires Base(sys) && Wf(sys) && !Misled(sys, HearData(b, f, c)) && b in sys.nodes && OnAir(sys, f)
    requires R.Receive(sys.nodes[b].rx, f, c).1
    ensures R.Got(R.Receive(sys.nodes[b].rx, f, c).0, f.src, f.pkt) || f.body.Other?
  {
    hide I.Inv, OnAir, R.Receive, R.Misleads, R.Got;
    assert NodeBase(sys, b);
    R.FalseAckIff(sys.nodes[b].rx, f, c);
  }

  lemma HearDataSound(sys: Sys, b: nat, f: R.Frame, c: R.Clock)
    requires Sound(sys) && Wf(sys) && !Misled(sys, HearData(b, f, c)) && b in sys.nodes && OnAir(sys, f)
    ensures Sound(Do(sys, HearData(b, f, c)))
  {
    hide Base, Take, R.Receive, NodeGrows, OnAir, Confirmed, Misled, AckTrue;
    var sys' := Do(sys, HearData(b, f, c));
    HearDataBase(sys, b, f, c);
    TakeGrows(sys, b, f, c);
    forall k | k in sys'.acks && k !in sys.acks ensures AckTrue(sys', k) {
      AckOutTrue(sys, b, f, c);
      TakeRx(sys.nodes[b], f, c);
      OnAirStays(sys, sys', b, f);
      AckTrueBy(sys', k, f);
    }
    SoundByOne(sys, sys', b);
  }

  /** A misled hearing puts a false ACK on the air. */
  lemma MisledUnsound(sys: Sys, step: Step)
    requires Sound(sys) && Wf(sys) && Misled(sys, step)
    ensures !Sound(Do(sys, step))
  {
    hide Take, R.Receive, OnAir, R.Misleads, R.Got, P.Do, I.Inv;
    var b, f, c := step.b, step.f, step.c;
    var sys', k := Do(sys, step), AckFrame(b, f.src, f.pkt);
    assert NodeBase(sys, b);
    R.FalseAckIff(sys.nodes[b].rx, f, c);
    TakeRx(sys.nodes[b], f, c);
    HearDataBase(sys, b, f, c);
    OnAirStays(sys, sys', b, f);
    if AckTrue(sys', k) {
      assert NodeBase(sys', f.src);
      var d :| P.OtherSent(k.pkt, d) in sys'.nodes[f.src].p.log;
      FaithfulNow(sys', f.src);
      OneFramePerPkt(sys'.nodes[f.src].p, Sending(sys', f), P.OtherSent(k.pkt, d));
    }
    assert k in sys'.acks;
  }

  lemma FaithfulNow(sys: Sys, a: nat)
    requires a in sys.nodes && NodeBase(sys, a)
    ensures I.Faithful(sys.nodes[a].p)
  {
  }

  lemma TakeRx(n: Node, f: R.Frame, c: R.Clock)
    requires P.Shape(n.p) && R.Shape(n.rx)
    ensures Take(n, f, c).rx == R.Receive(n.rx, f, c).0
  {
  }

  lemma AckTrueBy(sys: Sys, k: AckFrame, f: R.Frame)
    requires k.src in sys.nodes && OnAir(sys, f) && k.dest == f.src && k.pkt == f.pkt
    requires R.Got(sys.nodes[k.src].rx, k.dest, k.pkt) || f.body.Other?
    ensures AckTrue(sys, k)
  {
  }

  /** One packet id, one frame. */
  lemma OneFramePerPkt(p: P.State, d: P.Event, e: P.Event)
    requires I.Faithful(p) && d in p.log && e in p.log && I.IsSent(d) && I.IsSent(e) && d.pkt == e.pkt
    ensures d == e
  {
    hide I.EntryTrue, I.RowTrue, I.EventTrue, I.AckTrue;
    var i :| 0 <= i < |p.log| && p.log[i] == d;
    var j :| 0 <= j < |p.log| && p.log[j] == e;
    assert i == j;
  }

  /** The event that put a frame on the air. */
  ghost function Sending(sys: Sys, f: R.Frame): (e: P.Event)
    requires OnAir(sys, f)
    ensures e in sys.nodes[f.src].p.log && I.IsSent(e) && e.pkt == f.pkt && e.dest == f.dest
    ensures f.body.Dm? <==> e.Transmitted?
    ensures f.body.Dm? ==> e.data == f.body.data
  {
    if f.body.Dm? then
      var u :| P.Transmitted(u, f.pkt, f.dest, f.body.data) in sys.nodes[f.src].p.log;
      P.Transmitted(u, f.pkt, f.dest, f.body.data)
    else P.OtherSent(f.pkt, f.dest)
  }

  /** A row that records the acknowledged packet records the frame that was delivered. */
  lemma AckNamesTheRow(sys: Sys, a: nat, ack: AckFrame, r: Row)
    requires Sound(sys) && a in sys.nodes && ack in sys.acks && ack.dest == a
    requires r in sys.nodes[a].p.store && r.pkt == ack.pkt != 0
    ensures Confirmed(sys, a, r)
  {
    assert AckTrue(sys, ack) && NodeBase(sys, a) && NodeBase(sys, ack.src);
    var p := sys.nodes[a].p;
    assert I.RowTrue(p, r);
    var mine := P.Transmitted(r.uid, r.pkt, r.peer, p.book[r.uid].data);
    if R.Got(sys.nodes[ack.src].rx, a, ack.pkt) {
      var f :| f in sys.nodes[ack.src].rx.inbox && f.src == a && f.pkt == ack.pkt;
      OneFramePerPkt(p, mine, Sending(sys, f));
    } else {
      var d :| P.OtherSent(ack.pkt, d) in p.log;
      OneFramePerPkt(p, mine, P.OtherSent(ack.pkt, d));
    }
  }

  /** What an ACK does to the rows: only one it names becomes DELIVERED. */
  lemma AckDelivers(p: P.State, pkt: nat, m: Row)
    requires P.Shape(p) && m in P.AckArrives(p, pkt).store && m.status == Delivered
    ensures m in p.store || exists r :: r in p.store && r.pkt == pkt != 0 && m == r.(status := m.status)
  {
    var p' := P.AckArrives(p, pkt);
    var k :| 0 <= k < |p'.store| && p'.store[k] == m;
    assert p.store[k] in p.store;
  }

  lemma HearAckSound(sys: Sys, a: nat, ack: AckFrame)
    requires Sound(sys) && Wf(sys) && a in sys.nodes && ack in sys.acks && ack.dest == a
    ensures Sound(Do(sys, HearAck(a, ack)))
  {
    hide P.AckArrives, Base, OnAir, AckTrue, Grows, RowsTrue;
    var sys' := Do(sys, HearAck(a, ack));
    var n := sys.nodes[a];
    SteppedBase(sys, sys', a, P.AckStep(ack.pkt));
    forall m | m in sys'.nodes[a].p.store && m.status == Delivered && m !in n.p.store ensures Confirmed(sys', a, m) {
      AckDelivers(n.p, ack.pkt, m);
      var r :| r in n.p.store && r.pkt == ack.pkt != 0 && m == r.(status := m.status);
      AckNamesTheRow(sys, a, ack, r);
      assert Confirmed(sys, a, m);
      ConfirmedStays(sys, sys', a, a, m);
    }
    SoundByOne(sys, sys', a);
  }

  lemma HearNoiseBase(sys: Sys, b: nat, key: nat, ms: nat)
    requires Base(sys) && Wf(sys) && b in sys.nodes
    ensures Grows(sys, Do(sys, HearNoise(b, key, ms)), b) && Base(Do(sys, HearNoise(b, key, ms)))
  {
    hide Dedup.CheckAndAdd, I.Inv, OnAir;
    var sys' := Do(sys, HearNoise(b, key, ms));
    var n := sys.nodes[b];
    assert NodeBase(sys, b);
    SelfAhead(n.p);
    assert Grows(sys, sys', b);
    forall f | f in n.rx.inbox ensures OnAir(sys', f) { OnAirStays(sys, sys', b, f); }
    BaseByOne(sys, sys', b);
  }

  lemma DoBase(sys: Sys, step: Step)
    requires Base(sys) && Wf(sys)
    ensures Base(Do(sys, step))
  {
    hide Base, OnAir, Take, R.Receive, P.Do, Dedup.CheckAndAdd, Grows;
    match step
    case Local(a, st) => if a in sys.nodes && !st.AckStep? { SteppedBase(sys, Do(sys, step), a, st); }
    case HearData(b, f, c) => if b in sys.nodes && OnAir(sys, f) { HearDataBase(sys, b, f, c); }
    case HearNoise(b, key, ms) => if b in sys.nodes { HearNoiseBase(sys, b, key, ms); }
    case HearAck(a, ack) =>
      if a in sys.nodes && ack in sys.acks && ack.dest == a { SteppedBase(sys, Do(sys, step), a, P.AckStep(ack.pkt)); }
  }

  /** Exactly which steps keep every ACK on the air and every DELIVERED row
      true: all but the hearings that mislead the re-ACK branch. */
  lemma DoSoundIff(sys: Sys, step: Step)
    requires Sound(sys) && Wf(sys)
    ensures Sound(Do(sys, step)) <==> !Misled(sys, step)
  {
    hide Sound, OnAir, R.Misleads, Take, R.Receive, P.Do, Dedup.CheckAndAdd;
    if Misled(sys, step) {
      MisledUnsound(sys, step);
    } else {
      match step
      case Local(a, st) => if a in sys.nodes && !st.AckStep? { LocalSound(sys, a, st); }
      case HearData(b, f, c) => if b in sys.nodes && OnAir(sys, f) { HearDataSound(sys, b, f, c); }
      case HearNoise(b, key, ms) => if b in sys.nodes { HearNoiseSound(sys, b, key, ms); }
      case HearAck(a, ack) => if a in sys.nodes && ack in sys.acks && ack.dest == a { HearAckSound(sys, a, ack); }
    }
  }

  lemma HearNoiseSound(sys: Sys, b: nat, key: nat, ms: nat)
    requires Sound(sys) && Wf(sys) && b in sys.nodes
    ensures Sound(Do(sys, HearNoise(b, key, ms)))
  {
    hide Dedup.CheckAndAdd, Base, Grows, Confirmed, AckTrue, RowsTrue;
    HearNoiseBase(sys, b, key, ms);
    SoundByOne(sys, Do(sys, HearNoise(b, key, ms)), b);
  }

  // -------------------------------------------------------- over every run

  /** Every node freshly booted, nothing on the air. */
  ghost predicate Start(sys: Sys) {
    && sys.acks == {}
    && forall a :: a in sys.nodes ==>
         && (exists cap: nat, first: nat :: 0 < cap && 0 < first && sys.nodes[a].p == P.Init(cap, first))
         && R.Fresh(sys.nodes[a].rx) && sys.nodes[a].rx.delivered == [] && sys.nodes[a].rx.addr == a
  }

  lemma StartSound(sys: Sys)
    requires Start(sys)
    ensures Sound(sys) && Wf(sys)
  {
    forall a | a in sys.nodes ensures NodeBase(sys, a) {
      var cap: nat, first: nat :| 0 < cap && 0 < first && sys.nodes[a].p == P.Init(cap, first);
      I.InitInv(cap, first);
    }
    BaseWf(sys);
  }

  lemma {:induction false} BaseEveryRun(sys: Sys, steps: seq<Step>)
    requires Start(sys) && Wf(sys)
    ensures Base(Run(sys, steps))
    decreases |steps|
  {
    hide Sound, Start, Base, Do;
    StartBase(sys);
    if steps != [] {
      BaseEveryRun(sys, steps[..|steps| - 1]);
      DoBase(Run(sys, steps[..|steps| - 1]), steps[|steps| - 1]);
    }
  }

  lemma StartBase(sys: Sys)
    requires Start(sys)
    ensures Base(sys)
  {
    StartSound(sys);
  }

  /** No hearing of the run misled the re-ACK branch. */
  ghost predicate NeverMisled(sys: Sys, steps: seq<Step>)
    requires Wf(sys)
    decreases |steps|
  {
    steps != [] ==> NeverMisled(sys, steps[..|steps| - 1]) && !Misled(Run(sys, steps[..|steps| - 1]), steps[|steps| - 1])
  }

  lemma {:induction false} SoundEveryRun(sys: Sys, steps: seq<Step>)
    requires Start(sys) && Wf(sys) && NeverMisled(sys, steps)
    ensures Sound(Run(sys, steps))
    decreases |steps|
  {
    hide Sound, Start, Misled, Do;
    if steps == [] {
      StartSound(sys);
    } else {
      SoundEveryRun(sys, steps[..|steps| - 1]);
      DoSoundIff(Run(sys, steps[..|steps| - 1]), steps[|steps| - 1]);
    }
  }

  /** While keys do not collide the re-ACK branch cannot be misled. */
  lemma ApartNotMisled(sys: Sys, step: Step)
    requires Base(sys) && KeysApart(sys)
    ensures !Misled(sys, step)
  {
    hide I.Inv, OnAir, R.Key, R.DispatchKey, KeysApart;
    if Misled(sys, step) {
      assert NodeBase(sys, step.b);
      R.FalseAckIff(sys.nodes[step.b].rx, step.f, step.c);
      var g :| g in sys.nodes[step.b].rx.inbox && R.Key(g.pkt, g.src) == R.Key(step.f.pkt, step.f.src) && g.src != step.f.src;
      Apart(sys, step.b, step.f, g);
    }
  }

  lemma Apart(sys: Sys, b: nat, f: R.Frame, g: R.Frame)
    requires KeysApart(sys) && b in sys.nodes && OnAir(sys, f) && f.body.Dm? && f.dest == b && g in sys.nodes[b].rx.inbox
    requires R.Key(f.pkt, f.src) == R.Key(g.pkt, g.src)
    ensures f.src == g.src
  {
  }

  /** Confirmation is sound: after any run, a row marked DELIVERED at any node
      means its peer delivered the frame with that row's packet id, from that
      node, carrying exactly the text the user submitted. */
  lemma ConfirmationIsSound(sys: Sys, steps: seq<Step>, a: nat, m: Row)
    requires Start(sys) && Wf(sys) && NeverMisled(sys, steps)
    requires a in sys.nodes && m in Run(sys, steps).nodes[a].p.store && m.status == Delivered
    ensures var end := Run(sys, steps);
      && m.peer in end.nodes && m.uid in end.nodes[a].p.book
      && exists f :: f in end.nodes[m.peer].rx.inbox && f.src == a && f.pkt == m.pkt
           && f.body == R.Dm(end.nodes[a].p.book[m.uid].data)
  {
    hide Run, NeverMisled, Start, Base;
    SoundEveryRun(sys, steps);
    assert RowsTrue(Run(sys, steps), a);
  }

  // ------------------------------------------- a false confirmation, in full

  function Up(): P.Env { P.Env(true, true, P.Active, true, false, 10, 10) }

  /** A fresh node's first message goes straight out. */
  lemma FirstMessage(cap: nat, first: nat, dest: nat, data: seq<char>)
    requires 0 < cap && 0 < first && |data| <= P.MAX_DM
    ensures var p := P.Do(P.Init(cap, first), P.SubmitStep(dest, data, Up()));
      && p.log == [P.Transmitted(1, first, dest, data)]
      && p.store == [Row(dest, 1, true, true, Sent, first, 10, Clip(data))]
  {
  }

  /** The ACK for it marks its row. */
  lemma FirstAck(p: P.State, row: Row)
    requires P.Shape(p) && p.store == [row] && row.status == Sent && row.pkt != 0
    ensures P.Do(p, P.AckStep(row.pkt)).store == [row.(status := Delivered)]
  {
  }

  /** Three nodes, of which 1 and 3 are to write to 9 under packet ids 3 and 1. */
  ghost predicate Trio(sys: Sys, cap: nat) {
    && Start(sys) && 0 < cap && sys.nodes.Keys == {1, 3, 9}
    && sys.nodes[1].p == P.Init(cap, 3) && sys.nodes[3].p == P.Init(cap, 1)
    && sys.nodes[9].rx.seen == [] && !sys.nodes[9].rx.gate.window[0].used
    && sys.seal(1, 3).counter == 0 && sys.seal(3, 1).counter == 0
  }

  /** Both write, 9 delivers the first message, hears some packet 1 and then the second. */
  function Collision(c: R.Clock): seq<Step> {
    [Local(1, P.SubmitStep(9, "hi", Up())), Local(3, P.SubmitStep(9, "yo", Up())), HearData(9, R.NodeOnesFrame(), c),
     HearNoise(9, R.DispatchKey(1), c.ms), HearData(9, R.NodeThreesFrame(), c), HearAck(3, AckFrame(9, 3, 1))]
  }

  lemma OnlyFrame(sys: Sys, f: R.Frame)
    requires f.src in sys.nodes && f.body.Dm? && f.counter == sys.seal(f.src, f.pkt).counter
    requires sys.nodes[f.src].p.log == [P.Transmitted(1, f.pkt, f.dest, f.body.data)]
    ensures OnAir(sys, f)
  {
    assert sys.nodes[f.src].p.log[0] == P.Transmitted(1, f.pkt, f.dest, f.body.data);
  }

  lemma BothSent(sys: Sys, cap: nat, c: R.Clock)
    requires Trio(sys, cap) && Wf(sys)
    ensures var sys2 := Do(Do(sys, Collision(c)[0]), Collision(c)[1]);
      && sys2.nodes[9] == sys.nodes[9] && sys2.acks == sys.acks
      && sys2.nodes[3].p == P.Do(P.Init(cap, 1), P.SubmitStep(9, "yo", Up()))
      && OnAir(sys2, R.NodeOnesFrame()) && OnAir(sys2, R.NodeThreesFrame())
  {
    hide P.Do, P.Init, Do, Start, R.DispatchKey, OnAir, Wf;
    assert {1, 3, 9} == sys.nodes.Keys && 1 in sys.nodes && 3 in sys.nodes && 9 in sys.nodes;
    FirstMessage(cap, 3, 9, "hi");
    FirstMessage(cap, 1, 9, "yo");
    var sys1 := Do(sys, Collision(c)[0]);
    Writes(sys, 1, 9, "hi");
    Writes(sys1, 3, 9, "yo");
    var sys2 := Do(sys1, Collision(c)[1]);
    OnlyFrame(sys2, R.NodeOnesFrame());
    OnlyFrame(sys2, R.NodeThreesFrame());
  }

  lemma Writes(sys: Sys, a: nat, dest: nat, data: seq<char>)
    requires Wf(sys) && a in sys.nodes
    ensures var st := P.SubmitStep(dest, data, Up());
      var sys' := Do(sys, Local(a, st));
      && sys'.nodes[a].p == P.Do(sys.nodes[a].p, st) && sys'.acks == sys.acks && sys'.seal == sys.seal
      && (forall b :: b in sys.nodes && b != a ==> sys'.nodes[b] == sys.nodes[b])
  {
    hide P.Do;
  }

  /** What 9 makes of it: the second message is confirmed and not delivered. */
  lemma WronglyConfirmed(sys: Sys, c: R.Clock)
    requires Wf(sys) && 9 in sys.nodes && 3 in sys.nodes && sys.acks == {} && OnAir(sys, R.NodeOnesFrame()) && OnAir(sys, R.NodeThreesFrame())
    requires var rx := sys.nodes[9].rx;
      R.Fresh(rx) && rx.addr == 9 && rx.seen == [] && rx.delivered == [] && !rx.gate.window[0].used && !c.confident
    ensures var sys5 := Do(Do(Do(sys, Collision(c)[2]), Collision(c)[3]), Collision(c)[4]);
      && AckFrame(9, 3, 1) in sys5.acks && sys5.nodes[3] == sys.nodes[3]
      && !R.Got(sys5.nodes[9].rx, 3, 1)
  {
    hide P.Do, R.Receive, R.DispatchKey, OnAir, R.Got;
    var rx := sys.nodes[9].rx;
    var sys3 := Do(sys, Collision(c)[2]);
    TakeRx(sys.nodes[9], R.NodeOnesFrame(), c);
    StillOnAir(sys, c);
    assert sys3.nodes[9].rx == R.Hear(rx, R.Data(R.NodeOnesFrame(), c));
    var sys4 := Do(sys3, Collision(c)[3]);
    var hs := [R.Data(R.NodeOnesFrame(), c), R.Noise(R.DispatchKey(1), c.ms)];
    HearTwo(rx, hs);
    assert sys4.nodes[9].rx == R.HearAll(rx, hs);
    R.FalseAck(rx, c);
    TakeRx(sys4.nodes[9], R.NodeThreesFrame(), c);
  }

  lemma HearTwo(r: R.Rx, hs: seq<R.Heard>)
    requires R.Shape(r) && |hs| == 2
    ensures R.HearAll(r, hs) == R.Hear(R.Hear(r, hs[0]), hs[1])
  {
    hide R.Hear;
    assert hs[..1][..0] == [] && hs[..1][0] == hs[0];
    assert R.HearAll(r, hs[..1][..0]) == r;
    assert R.HearAll(r, hs[..1]) == R.Hear(r, hs[0]);
  }

  /** What 9 hears changes nothing about what 3 has sent. */
  lemma StillOnAir(sys: Sys, c: R.Clock)
    requires Wf(sys) && 9 in sys.nodes && OnAir(sys, R.NodeOnesFrame()) && OnAir(sys, R.NodeThreesFrame())
    ensures OnAir(Do(Do(sys, Collision(c)[2]), Collision(c)[3]), R.NodeThreesFrame())
  {
    hide P.Do, R.Receive, R.DispatchKey, Take;
  }

  /** Without the proviso it is false: a run after which node 3 shows its message
      as delivered and node 9 has never delivered it. */
  lemma FalseConfirmation(sys: Sys, cap: nat, c: R.Clock)
    requires Trio(sys, cap) && Wf(sys) && !c.confident
    ensures var end := Run(sys, Collision(c));
      && end.nodes[3].p.store == [Row(9, 1, true, true, Delivered, 1, 10, Clip("yo"))]
      && !R.Got(end.nodes[9].rx, 3, 1)
  {
    hide Do, OnAir, R.Got, R.DispatchKey;
    var steps := Collision(c);
    RunSix(sys, steps);
    var sys2 := Do(Do(sys, steps[0]), steps[1]);
    BothSent(sys, cap, c);
    WronglyConfirmed(sys2, c);
    var sys5 := Do(Do(Do(sys2, steps[2]), steps[3]), steps[4]);
    FirstMessage(cap, 1, 9, "yo");
    FirstAck(sys5.nodes[3].p, sys5.nodes[3].p.store[0]);
    AckHeard(sys5);
  }

  lemma AckHeard(sys: Sys)
    requires Wf(sys) && 3 in sys.nodes && 9 in sys.nodes && AckFrame(9, 3, 1) in sys.acks
    ensures var sys' := Do(sys, HearAck(3, AckFrame(9, 3, 1)));
      sys'.nodes[3].p == P.Do(sys.nodes[3].p, P.AckStep(1)) && sys'.nodes[9] == sys.nodes[9]
  {
    hide P.Do;
  }

  lemma RunSix(sys: Sys, steps: seq<Step>)
    requires Wf(sys) && |steps| == 6
    ensures Run(sys, steps) == Do(Do(Do(Do(Do(Do(sys, steps[0]), steps[1]), steps[2]), steps[3]), steps[4]), steps[5])
  {
    hide Do;
    assert steps[..5][..4] == steps[..4] && steps[..4][..3] == steps[..3] && steps[..3][..2] == steps[..2];
    assert steps[..2][..1] == steps[..1] && steps[..1][..0] == [];
    assert Run(sys, steps[..1]) == Do(sys, steps[0]);
    assert Run(sys, steps[..2]) == Do(Do(sys, steps[0]), steps[1]);
    assert Run(sys, steps[..3]) == Do(Do(Do(sys, steps[0]), steps[1]), steps[2]);
    assert Run(sys, steps[..4]) == Do(Do(Do(Do(sys, steps[0]), steps[1]), steps[2]), steps[3]);
  }

  // ----------------------------------------------------- a network of two

  /** No node has sent a DM to itself. */
  ghost predicate NoSelfDm(sys: Sys) {
    forall a, e :: a in sys.nodes && e in sys.nodes[a].p.log && e.Transmitted? ==> e.dest != a
  }

  lemma TwoNodesApart(sys: Sys, a: nat, b: nat)
    requires Base(sys) && sys.nodes.Keys == {a, b} && NoSelfDm(sys)
    ensures KeysApart(sys)
  {
    hide I.Inv;
    forall x, f, g | x in sys.nodes && OnAir(sys, f) && f.body.Dm? && f.dest == x && g in sys.nodes[x].rx.inbox ensures f.src == g.src {
      assert NodeBase(sys, x);
      assert Sending(sys, f).dest == x && f.src in sys.nodes.Keys && g.src in sys.nodes.Keys && x in sys.nodes.Keys;
    }
  }

  lemma NoSelfDmBefore(sys: Sys, step: Step)
    requires Base(sys) && Wf(sys) && NoSelfDm(Do(sys, step))
    ensures NoSelfDm(sys)
  {
    hide OnAir, Take, R.Receive, P.Do, Dedup.CheckAndAdd, I.Inv;
    var sys' := Do(sys, step);
    if sys'.nodes != sys.nodes {
      var x := match step case Local(a, _) => a case HearData(b, _, _) => b case HearNoise(b, _, _) => b case HearAck(a, _) => a;
      if step.Local? { SteppedBase(sys, sys', x, step.step); }
      if step.HearData? { HearDataBase(sys, x, step.f, step.c); }
      if step.HearNoise? { HearNoiseBase(sys, x, step.key, step.ms); }
      if step.HearAck? { SteppedBase(sys, sys', x, P.AckStep(step.ack.pkt)); }
      forall y, e | y in sys.nodes && e in sys.nodes[y].p.log && e.Transmitted? ensures e.dest != y {
        LogStays(sys, sys', x, y, e);
      }
    }
  }

  /** Between two nodes the premise of soundness holds in every run in which
      neither writes to itself. */
  lemma {:induction false} TwoNodesNeverMisled(sys: Sys, steps: seq<Step>, a: nat, b: nat)
    requires Start(sys) && Wf(sys) && sys.nodes.Keys == {a, b} && NoSelfDm(Run(sys, steps))
    ensures NeverMisled(sys, steps)
    decreases |steps|
  {
    hide Start, KeysApart, Do, Base, NoSelfDm, Misled;
    if steps != [] {
      var before := steps[..|steps| - 1];
      var t := Run(sys, before);
      BaseEveryRun(sys, before);
      NoSelfDmBefore(t, steps[|steps| - 1]);
      TwoNodesApart(t, a, b);
      ApartNotMisled(t, steps[|steps| - 1]);
      TwoNodesNeverMisled(sys, before, a, b);
    }
  }

  // ------------------------------------------------------ at most once

  /** What a step of the system is to one receiver: something it hears, or nothing. */
  ghost function HeardIn(sys: Sys, step: Step, b: nat): (hs: seq<R.Heard>)
    ensures |hs| <= 1
  {
    if step.HearData? && step.b == b && OnAir(sys, step.f) then [R.Data(step.f, step.c)]
    else if step.HearNoise? && step.b == b then [R.Noise(step.key, step.ms)]
    else []
  }

  /** Everything a node heard in a run. */
  ghost function Hearings(sys: Sys, steps: seq<Step>, b: nat): seq<R.Heard>
    requires Wf(sys)
    decreases |steps|
  {
    if steps == [] then []
    else Hearings(sys, steps[..|steps| - 1], b) + HeardIn(Run(sys, steps[..|steps| - 1]), steps[|steps| - 1], b)
  }

  lemma StepHeard(sys: Sys, step: Step, b: nat)
    requires Wf(sys) && b in sys.nodes
    ensures Do(sys, step).nodes[b].rx == R.HearAll(sys.nodes[b].rx, HeardIn(sys, step, b))
  {
    hide P.Do, Dedup.CheckAndAdd, R.Receive, OnAir;
    var hs := HeardIn(sys, step, b);
    HearOne(sys.nodes[b].rx, hs);
    if step.HearData? && step.b == b && OnAir(sys, step.f) { TakeRx(sys.nodes[b], step.f, step.c); }
  }

  lemma HearOne(r: R.Rx, hs: seq<R.Heard>)
    requires R.Shape(r) && |hs| <= 1
    ensures R.HearAll(r, hs) == if hs == [] then r else R.Hear(r, hs[0])
  {
    hide R.Hear;
    if hs != [] { assert hs[..0] == [] && R.HearAll(r, hs[..0]) == r; }
  }

  lemma HearMore(r: R.Rx, hs: seq<R.Heard>, more: seq<R.Heard>)
    requires R.Shape(r) && |more| <= 1
    ensures R.HearAll(r, hs + more) == R.HearAll(R.HearAll(r, hs), more)
  {
    hide R.Hear;
    HearOne(R.HearAll(r, hs), more);
    if more == [] { assert hs + more == hs; } else { assert (hs + more)[..|hs|] == hs; }
  }

  /** A receiver of the network is a receiver that hears just that. */
  lemma {:induction false} RunIsHearings(sys: Sys, steps: seq<Step>, b: nat)
    requires Wf(sys) && b in sys.nodes
    ensures Run(sys, steps).nodes[b].rx == R.HearAll(sys.nodes[b].rx, Hearings(sys, steps, b))
    decreases |steps|
  {
    hide Do, R.HearAll, HeardIn;
    if steps == [] {
      HearOne(sys.nodes[b].rx, []);
    } else {
      var before, step := steps[..|steps| - 1], steps[|steps| - 1];
      RunIsHearings(sys, before, b);
      StepHeard(Run(sys, before), step, b);
      HearMore(sys.nodes[b].rx, Hearings(sys, before, b), HeardIn(Run(sys, before), step, b));
    }
  }

  /** Two frames on the air with one sender and packet id are copies. */
  lemma SamePacketSameBytes(sys: Sys, f: R.Frame, g: R.Frame)
    requires Base(sys) && OnAir(sys, f) && OnAir(sys, g) && f.src == g.src && f.pkt == g.pkt
    ensures f == g
  {
    assert NodeBase(sys, f.src);
    OneFramePerPkt(sys.nodes[f.src].p, Sending(sys, f), Sending(sys, g));
  }

  /** The packet is not twice in the inbox. */
  predicate PacketOnce(inbox: seq<R.Frame>, f: R.Frame) {
    forall i, j :: 0 <= i < j < |inbox| && inbox[i].src == inbox[j].src == f.src && inbox[i].pkt == inbox[j].pkt ==> inbox[i].pkt != f.pkt
  }

  lemma OnceByPacket(sys: Sys, b: nat, f: R.Frame)
    requires Base(sys) && b in sys.nodes && OnAir(sys, f) && R.Once(sys.nodes[b].rx.inbox, f)
    ensures PacketOnce(sys.nodes[b].rx.inbox, f)
  {
    hide OnAir, I.Inv;
    var inbox := sys.nodes[b].rx.inbox;
    assert NodeBase(sys, b);
    forall i, j | 0 <= i < j < |inbox| && inbox[i].src == inbox[j].src == f.src && inbox[i].pkt == inbox[j].pkt ensures inbox[i].pkt != f.pkt {
      if inbox[i].pkt == f.pkt {
        assert inbox[i] in inbox && inbox[j] in inbox;
        SamePacketSameBytes(sys, inbox[i], f);
        SamePacketSameBytes(sys, inbox[j], f);
      }
    }
  }

  /** No node delivers a packet twice: in any run whatever of the whole network,
      a packet that is not a public-channel one is in a node's inbox at most
      once, if there its sender kept its slot and, for chat, it got and kept its
      own record. */
  lemma PacketDeliveredOnce(sys: Sys, steps: seq<Step>, b: nat, f: R.Frame)
    requires Start(sys) && Wf(sys) && b in sys.nodes && OnAir(Run(sys, steps), f) && R.Gated(f.body)
    requires R.SlotStays(sys.nodes[b].rx, Hearings(sys, steps, b), f)
    requires R.Bare(f).chat ==> R.RecordStays(sys.nodes[b].rx, Hearings(sys, steps, b), f)
    ensures PacketOnce(Run(sys, steps).nodes[b].rx.inbox, f)
  {
    hide Run, OnAir, R.SlotStays, R.RecordStays, R.HearAll, Hearings, R.Once, PacketOnce, Base;
    BaseEveryRun(sys, steps);
    RunIsHearings(sys, steps, b);
    R.DeliveredOnce(sys.nodes[b].rx, Hearings(sys, steps, b), f);
    OnceByPacket(Run(sys, steps), b, f);
  }

  /** A DM needs its sender's slot only, where the node's clock is untrusted or
      more than a day past its epoch when it hears a copy. */
  lemma DmPacketDeliveredOnce(sys: Sys, steps: seq<Step>, b: nat, f: R.Frame)
    requires Start(sys) && Wf(sys) && b in sys.nodes && OnAir(Run(sys, steps), f) && f.body.Dm?
    requires R.SlotStays(sys.nodes[b].rx, Hearings(sys, steps, b), f) && R.DayOver(sys.nodes[b].rx, Hearings(sys, steps, b), f)
    ensures PacketOnce(Run(sys, steps).nodes[b].rx.inbox, f)
  {
    hide Run, OnAir, R.SlotStays, R.DayOver, R.HearAll, Hearings, R.Once, PacketOnce, Base;
    BaseEveryRun(sys, steps);
    RunIsHearings(sys, steps, b);
    R.DmDeliveredOnce(sys.nodes[b].rx, Hearings(sys, steps, b), f);
    OnceByPacket(Run(sys, steps), b, f);
  }
}
