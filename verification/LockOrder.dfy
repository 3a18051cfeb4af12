/**
 * The mutexes of the mesh firmware and the order every task takes them in:
 * the DM table outside the nonce counter and the shared state, the flash shim
 * inside everything (main/mesh_task.c, main/mesh_dm.c, main/mesh_channels.c,
 * main/mesh_location.c, main/mesh_persist.c).
 *
 * A task is any sequence of the critical-section paths listed below. However
 * many tasks run, in whatever interleaving, none re-enters a mutex it holds, no
 * ring of tasks waits on itself, and some task can always go on.
 */
module LockOrder {

  datatype Lock = Dm | Nonce | State | Event | Store | Nvs

  function Rank(l: Lock): nat {
    match l
    case Dm => 0
    case Nonce => 1
    case State => 2
    case Event => 3
    case Store => 4
    case Nvs => 5
  }

  datatype Op = Take(l: Lock) | Give(l: Lock)

  // ---------------------------------------------------------------- the paths

  /** nonce_counter_next under its mutex, with or without the reserve flush to flash. */
  function NonceDraw(flush: bool): seq<Op> {
    if flush then [Take(Nonce), Take(Nvs), Give(Nvs), Give(Nonce)] else [Take(Nonce), Give(Nonce)]
  }

  /** The bookkeeping of mesh_tx. */
  function TxCount(): seq<Op> { [Take(State), Give(State)] }

  datatype Path =
    | SendDm(flush: bool)          // mesh_send_dm, flush_session_queue: send_dm_packet under the DM mutex
    | SendData(flush: bool)        // send_data_packet, beacons, ACKs, receipts
    | LocationDirected(flush: bool) // location_tx_directed
    | SessionLookup                // any short look into the DM table
    | AddChannel                   // mesh_add_channel, mesh_remove_channel: channels saved under the state mutex
    | SharedState                  // a publish, a neighbor-table write, a UI read
    | CollectTargets               // location_collect_targets: the flash iteration, nothing else held
    | RestoreLocations             // mesh_peer_location_restore
    | ParkMessage                  // mesh_park_message: two store calls, then the neighbor table
    | StoreAccess                  // any message-store call
    | DeliveryEvent                // append to or read the delivery-event ring

  function Ops(p: Path): seq<Op> {
    match p
    case SendDm(flush) => [Take(Dm)] + NonceDraw(flush) + TxCount() + [Give(Dm)] + [Take(Store), Give(Store)]
    case SendData(flush) => NonceDraw(flush) + TxCount()
    case LocationDirected(flush) => [Take(Dm)] + NonceDraw(flush) + [Give(Dm)] + TxCount()
    case SessionLookup => [Take(Dm), Give(Dm)]
    case AddChannel => [Take(State), Take(Nvs), Give(Nvs), Give(State)]
    case SharedState => [Take(State), Give(State)]
    case CollectTargets => [Take(Nvs), Give(Nvs)]
    case RestoreLocations => [Take(Nvs), Give(Nvs), Take(State), Give(State)]
    case ParkMessage => [Take(Store), Give(Store), Take(Store), Give(Store), Take(State), Give(State)]
    case StoreAccess => [Take(Store), Give(Store)]
    case DeliveryEvent => [Take(Event), Give(Event)]
  }

  /** What a task does: one path after another. */
  function Program(ps: seq<Path>): seq<Op> {
    if ps == [] then [] else Ops(ps[0]) + Program(ps[1..])
  }

  // ---------------------------------------------------------------- the order

  /** Locks held after the first n operations. */
  function Held(prog: seq<Op>, n: nat): set<Lock>
    requires n <= |prog|
  {
    if n == 0 then {}
    else
      match prog[n - 1]
      case Take(l) => Held(prog, n - 1) + {l}
      case Give(l) => Held(prog, n - 1) - {l}
  }

  /** Every lock is taken above all those held, and none is held at the end. */
  predicate Ordered(prog: seq<Op>) {
    && (forall n, h :: 0 <= n < |prog| && prog[n].Take? && h in Held(prog, n) ==> Rank(h) < Rank(prog[n].l))
    && Held(prog, |prog|) == {}
  }

  lemma {:induction false} HeldSplits(a: seq<Op>, b: seq<Op>, n: nat)
    requires n <= |a| + |b| && Held(a, |a|) == {}
    ensures Held(a + b, n) == if n <= |a| then Held(a, n) else Held(b, n - |a|)
  {
    if n > 0 {
      HeldSplits(a, b, n - 1);
    }
  }

  lemma OrderedConcat(a: seq<Op>, b: seq<Op>)
    requires Ordered(a) && Ordered(b)
    ensures Ordered(a + b)
  {
    forall n | 0 <= n <= |a| + |b| ensures Held(a + b, n) == if n <= |a| then Held(a, n) else Held(b, n - |a|) {
      HeldSplits(a, b, n);
    }
  }

  lemma PairOrdered(l: Lock)
    ensures Ordered([Take(l), Give(l)])
  {
    var p := [Take(l), Give(l)];
    assert Held(p, 0) == {} && Held(p, 1) == {l} && Held(p, 2) == {};
  }

  lemma NestOrdered(l: Lock, k: Lock)
    requires Rank(l) < Rank(k)
    ensures Ordered([Take(l), Take(k), Give(k), Give(l)])
  {
    var p := [Take(l), Take(k), Give(k), Give(l)];
    assert Held(p, 0) == {} && Held(p, 1) == {l} && Held(p, 2) == {l, k} && Held(p, 3) == {l} && Held(p, 4) == {};
  }

  /** Every operation is on a lock above r. */
  predicate Above(prog: seq<Op>, r: nat) { forall n :: 0 <= n < |prog| ==> r < Rank(prog[n].l) }

  function Wrapped(l: Lock, inner: seq<Op>): seq<Op> { [Take(l)] + inner + [Give(l)] }

  lemma {:induction false} HeldAbove(inner: seq<Op>, r: nat, n: nat, h: Lock)
    requires Above(inner, r) && n <= |inner| && h in Held(inner, n)
    ensures r < Rank(h)
  {
    if n > 0 && h in Held(inner, n - 1) { HeldAbove(inner, r, n - 1, h); }
  }

  lemma {:induction false} HeldWrapped(l: Lock, inner: seq<Op>, n: nat)
    requires Above(inner, Rank(l)) && n <= |inner|
    ensures Held(Wrapped(l, inner), n + 1) == {l} + Held(inner, n)
  {
    var w := Wrapped(l, inner);
    if n == 0 {
      assert w[0] == Take(l) && Held(w, 0) == {};
    } else {
      HeldWrapped(l, inner, n - 1);
      assert w[n] == inner[n - 1];
      assert inner[n - 1].l != l;
    }
  }

  lemma WrapOrdered(l: Lock, inner: seq<Op>)
    requires Ordered(inner) && Above(inner, Rank(l))
    ensures Ordered(Wrapped(l, inner))
  {
    var w := Wrapped(l, inner);
    forall n, h | 0 <= n < |w| && w[n].Take? && h in Held(w, n) ensures Rank(h) < Rank(w[n].l) {
      if n > 0 {
        HeldWrapped(l, inner, n - 1);
        assert w[n] == inner[n - 1];
      }
    }
    HeldWrapped(l, inner, |inner|);
    assert w[|inner| + 1] == Give(l);
  }

  lemma NonceOrdered(flush: bool)
    ensures Ordered(NonceDraw(flush)) && Above(NonceDraw(flush), Rank(Dm))
  {
    PairOrdered(Nonce);
    NestOrdered(Nonce, Nvs);
  }

  lemma TxOrdered()
    ensures Ordered(TxCount()) && Above(TxCount(), Rank(Dm))
  {
    PairOrdered(State);
  }

  /** Every path takes its locks in order and ends with none. */
  lemma PathOrdered(p: Path)
    ensures Ordered(Ops(p))
  {
    hide Ordered;
    TxOrdered();
    match p
    case SendDm(flush) =>
      NonceOrdered(flush);
      OrderedConcat(NonceDraw(flush), TxCount());
      WrapOrdered(Dm, NonceDraw(flush) + TxCount());
      PairOrdered(Store);
      OrderedConcat(Wrapped(Dm, NonceDraw(flush) + TxCount()), [Take(Store), Give(Store)]);
      assert Ops(p) == Wrapped(Dm, NonceDraw(flush) + TxCount()) + [Take(Store), Give(Store)];
    case SendData(flush) =>
      NonceOrdered(flush);
      OrderedConcat(NonceDraw(flush), TxCount());
    case LocationDirected(flush) =>
      NonceOrdered(flush);
      WrapOrdered(Dm, NonceDraw(flush));
      OrderedConcat(Wrapped(Dm, NonceDraw(flush)), TxCount());
      assert Ops(p) == Wrapped(Dm, NonceDraw(flush)) + TxCount();
    case SessionLookup => PairOrdered(Dm);
    case AddChannel => NestOrdered(State, Nvs);
    case SharedState =>
    case CollectTargets => PairOrdered(Nvs);
    case RestoreLocations =>
      PairOrdered(Nvs);
      OrderedConcat([Take(Nvs), Give(Nvs)], TxCount());
      assert Ops(p) == [Take(Nvs), Give(Nvs)] + TxCount();
    case ParkMessage =>
      PairOrdered(Store);
      OrderedConcat([Take(Store), Give(Store)], TxCount());
      OrderedConcat([Take(Store), Give(Store)], [Take(Store), Give(Store)] + TxCount());
      assert Ops(p) == [Take(Store), Give(Store)] + ([Take(Store), Give(Store)] + TxCount());
    case StoreAccess => PairOrdered(Store);
    case DeliveryEvent => PairOrdered(Event);
  }

  lemma {:induction false} ProgramOrdered(ps: seq<Path>)
    ensures Ordered(Program(ps))
  {
    if ps != [] {
      PathOrdered(ps[0]);
      ProgramOrdered(ps[1..]);
      OrderedConcat(Ops(ps[0]), Program(ps[1..]));
    }
  }

  // ----------------------------------------------------------- running tasks

  /** Task i has the program progs[i] and has done its first pcs[i] operations. */
  predicate Shape(progs: seq<seq<Op>>, pcs: seq<nat>) {
    |pcs| == |progs| && forall i :: 0 <= i < |progs| ==> pcs[i] <= |progs[i]|
  }

  predicate Owns(progs: seq<seq<Op>>, pcs: seq<nat>, i: nat, l: Lock)
    requires Shape(progs, pcs) && i < |progs|
  {
    l in Held(progs[i], pcs[i])
  }

  predicate Unfinished(progs: seq<seq<Op>>, pcs: seq<nat>, i: nat)
    requires Shape(progs, pcs)
  {
    i < |progs| && pcs[i] < |progs[i]|
  }

  /** The lock the task's next operation takes is owned by task j. */
  predicate WaitsFor(progs: seq<seq<Op>>, pcs: seq<nat>, i: nat, j: nat)
    requires Shape(progs, pcs)
  {
    Unfinished(progs, pcs, i) && progs[i][pcs[i]].Take? && j < |progs| && Owns(progs, pcs, j, progs[i][pcs[i]].l)
  }

  /** The task's next operation can go ahead. */
  predicate Enabled(progs: seq<seq<Op>>, pcs: seq<nat>, i: nat)
    requires Shape(progs, pcs)
  {
    Unfinished(progs, pcs, i) && forall j :: 0 <= j < |progs| ==> !WaitsFor(progs, pcs, i, j)
  }

  /** A schedule: which task moves, each only when it can. */
  predicate Schedulable(progs: seq<seq<Op>>, sched: seq<nat>)
    decreases |sched|, 1
  {
    sched != [] ==>
      && Schedulable(progs, sched[..|sched| - 1])
      && Shape(progs, After(progs, sched[..|sched| - 1]))
      && Enabled(progs, After(progs, sched[..|sched| - 1]), sched[|sched| - 1])
  }

  function After(progs: seq<seq<Op>>, sched: seq<nat>): seq<nat>
    decreases |sched|, 0
  {
    if sched == [] then seq(|progs|, i => 0)
    else
      var pcs := After(progs, sched[..|sched| - 1]);
      var i := sched[|sched| - 1];
      if i < |pcs| then pcs[i := pcs[i] + 1] else pcs
  }

  /** No lock has two owners. */
  predicate Exclusive(progs: seq<seq<Op>>, pcs: seq<nat>)
    requires Shape(progs, pcs)
  {
    forall i, j, l :: 0 <= i < j < |progs| && Owns(progs, pcs, i, l) ==> !Owns(progs, pcs, j, l)
  }

  predicate AllOrdered(progs: seq<seq<Op>>) { forall i :: 0 <= i < |progs| ==> Ordered(progs[i]) }

  lemma {:induction false} ExclusiveEveryRun(progs: seq<seq<Op>>, sched: seq<nat>)
    requires Schedulable(progs, sched)
    ensures Shape(progs, After(progs, sched)) && Exclusive(progs, After(progs, sched))
    decreases |sched|
  {
    if sched != [] {
      var before := sched[..|sched| - 1];
      var i := sched[|sched| - 1];
      ExclusiveEveryRun(progs, before);
      var pcs := After(progs, before);
      var pcs' := pcs[i := pcs[i] + 1];
      forall k, l | 0 <= k < |progs| && Owns(progs, pcs', k, l)
        ensures Owns(progs, pcs, k, l) || (k == i && progs[i][pcs[i]] == Take(l))
      {
      }
      forall j, k, l | 0 <= j < k < |progs| && Owns(progs, pcs', j, l) ensures !Owns(progs, pcs', k, l) {
        assert !WaitsFor(progs, pcs, i, j) && !WaitsFor(progs, pcs, i, k);
      }
    }
  }

  // ------------------------------------------------------- no deadlock

  /** No task waits for itself. */
  lemma NoReentry(progs: seq<seq<Op>>, pcs: seq<nat>, i: nat)
    requires Shape(progs, pcs) && AllOrdered(progs) && i < |progs|
    ensures !WaitsFor(progs, pcs, i, i)
  {
    assert Ordered(progs[i]);
  }

  /** The rank of the lock a waiting task wants. */
  function Wants(progs: seq<seq<Op>>, pcs: seq<nat>, i: nat): nat
    requires Shape(progs, pcs) && Unfinished(progs, pcs, i)
  {
    Rank(progs[i][pcs[i]].l)
  }

  /** An owner that itself waits wants a higher lock. */
  lemma WaitClimbs(progs: seq<seq<Op>>, pcs: seq<nat>, i: nat, j: nat, k: nat)
    requires Shape(progs, pcs) && AllOrdered(progs)
    requires WaitsFor(progs, pcs, i, j) && WaitsFor(progs, pcs, j, k)
    ensures Wants(progs, pcs, i) < Wants(progs, pcs, j)
  {
    assert Ordered(progs[j]);
  }

  /** A chain of waiting tasks. */
  predicate Chain(progs: seq<seq<Op>>, pcs: seq<nat>, c: seq<nat>)
    requires Shape(progs, pcs)
  {
    forall n :: 0 <= n < |c| - 1 ==> WaitsFor(progs, pcs, c[n], c[n + 1])
  }

  lemma {:induction false} ChainClimbs(progs: seq<seq<Op>>, pcs: seq<nat>, c: seq<nat>, n: nat)
    requires Shape(progs, pcs) && AllOrdered(progs) && Chain(progs, pcs, c) && n + 1 < |c|
    ensures Unfinished(progs, pcs, c[0]) && Unfinished(progs, pcs, c[n])
    ensures Wants(progs, pcs, c[0]) + n <= Wants(progs, pcs, c[n])
  {
    assert WaitsFor(progs, pcs, c[0], c[1]) && WaitsFor(progs, pcs, c[n], c[n + 1]);
    if n > 0 {
      ChainClimbs(progs, pcs, c, n - 1);
      WaitClimbs(progs, pcs, c[n - 1], c[n], c[n + 1]);
    }
  }

  /** No ring of tasks, of any length, each waiting for the next. */
  lemma NoCycle(progs: seq<seq<Op>>, pcs: seq<nat>, c: seq<nat>)
    requires Shape(progs, pcs) && AllOrdered(progs) && |c| > 1
    ensures !(Chain(progs, pcs, c) && c[|c| - 1] == c[0])
  {
    if Chain(progs, pcs, c) && c[|c| - 1] == c[0] {
      // once round and one step further
      var d := c + [c[1]];
      forall n | 0 <= n < |d| - 1 ensures WaitsFor(progs, pcs, d[n], d[n + 1]) {
        assert WaitsFor(progs, pcs, c[0], c[1]);
      }
      ChainClimbs(progs, pcs, d, |c| - 1);
      assert false;
    }
  }

  /** From a waiting task, follow the owners: within six there is one that can go on. */
  lemma {:induction false} Unblock(progs: seq<seq<Op>>, pcs: seq<nat>, i: nat, fuel: nat) returns (k: nat)
    requires Shape(progs, pcs) && AllOrdered(progs) && Unfinished(progs, pcs, i)
    requires progs[i][pcs[i]].Take? ==> Wants(progs, pcs, i) + fuel >= 6
    ensures k < |progs| && Enabled(progs, pcs, k)
    decreases fuel
  {
    if Enabled(progs, pcs, i) {
      k := i;
    } else {
      var j :| 0 <= j < |progs| && WaitsFor(progs, pcs, i, j);
      OwnerUnfinished(progs, pcs, i, j);
      if Enabled(progs, pcs, j) {
        k := j;
      } else {
        var m :| 0 <= m < |progs| && WaitsFor(progs, pcs, j, m);
        WaitClimbs(progs, pcs, i, j, m);
        assert Wants(progs, pcs, j) <= 5;
        k := Unblock(progs, pcs, j, fuel - 1);
      }
    }
  }

  lemma OwnerUnfinished(progs: seq<seq<Op>>, pcs: seq<nat>, i: nat, j: nat)
    requires Shape(progs, pcs) && AllOrdered(progs) && WaitsFor(progs, pcs, i, j)
    ensures Unfinished(progs, pcs, j)
  {
    assert Ordered(progs[j]);
  }

  /** Deadlock freedom: whatever the tasks, the paths they run and the
      interleaving so far, if some task is not done then some task can move,
      no task waits for itself and no ring of tasks waits in a circle. */
  lemma NeverStuck(tasks: seq<seq<Path>>, sched: seq<nat>, i: nat, c: seq<nat>)
    requires var progs := seq(|tasks|, n requires 0 <= n < |tasks| => Program(tasks[n])); Schedulable(progs, sched)
    ensures var progs := seq(|tasks|, n requires 0 <= n < |tasks| => Program(tasks[n]));
      var pcs := After(progs, sched);
      && Shape(progs, pcs) && Exclusive(progs, pcs)
      && (Unfinished(progs, pcs, i) ==> exists k :: 0 <= k < |progs| && Enabled(progs, pcs, k))
      && (i < |progs| ==> !WaitsFor(progs, pcs, i, i))
      && (|c| > 1 ==> !(Chain(progs, pcs, c) && c[|c| - 1] == c[0]))
  {
    var progs := seq(|tasks|, n requires 0 <= n < |tasks| => Program(tasks[n]));
    forall n | 0 <= n < |progs| ensures Ordered(progs[n]) { ProgramOrdered(tasks[n]); }
    hide Ordered, Schedulable;
    ExclusiveEveryRun(progs, sched);
    var pcs := After(progs, sched);
    if Unfinished(progs, pcs, i) { var k := Unblock(progs, pcs, i, 6); }
    if i < |progs| { NoReentry(progs, pcs, i); }
    if |c| > 1 { NoCycle(progs, pcs, c); }
  }

  /** The order matters: sending while the flash iterator is held, against a
      channel being saved, leaves both tasks waiting for each other. */
  lemma ReversedOrderSticks()
    ensures var progs := [[Take(Nvs), Take(State), Give(State), Give(Nvs)], Ops(AddChannel)];
      && Schedulable(progs, [0, 1])
      && WaitsFor(progs, After(progs, [0, 1]), 0, 1) && WaitsFor(progs, After(progs, [0, 1]), 1, 0)
  {
    var progs := [[Take(Nvs), Take(State), Give(State), Give(Nvs)], Ops(AddChannel)];
    assert [0, 1][..1] == [0] && [0][..0] == [];
    assert After(progs, []) == [0, 0];
    assert After(progs, [0]) == [1, 0];
    assert After(progs, [0, 1]) == [1, 1];
    assert Held(progs[0], 1) == {Nvs} && Held(progs[1], 0) == {} && Held(progs[1], 1) == {State};
    assert Held(progs[0], 0) == {};
    assert Enabled(progs, [0, 0], 0);
    assert Enabled(progs, [1, 0], 1);
    assert Schedulable(progs, []);
    assert Schedulable(progs, [0]);
  }
}
