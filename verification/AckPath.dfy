/**
 * The trail an ACK carries home in reactive mode (main/mesh_reliability.c):
 * the destination signs it with itself as the only entry, and every relay
 * appends its address and lowers the hop limit before it transmits.
 */
module AckPath {
  import opened Basics

  const HOP_LIMIT: nat := 8
  const MAX_HOPS: nat := 8
  const ROUTE_MAX: nat := 10

  /** An ACK on the air. `trail` is who really transmitted it, in order. */
  datatype Ack = Ack(origin: nat, dest: nat, num: nat, limit: nat, path: seq<nat>, trail: seq<nat>)

  /** send_ack. */
  function Sent(node: nat, dest: nat, num: nat): Ack { Ack(node, dest, num, HOP_LIMIT, [node], [node]) }

  /** forward_ack, given a usable route or none. */
  function Forwarded(a: Ack, node: nat, route: bool): (r: Option<Ack>)
  {
    if a.limit <= 1 || !route then None
    else
      Some(a.(path := if |a.path| < MAX_HOPS then a.path + [node] else a.path, limit := a.limit - 1, trail := a.trail + [node]))
  }

  /** The path is the trail, and what it has grown the limit has shrunk. */
  predicate Faithful(a: Ack) {
    && a.path == a.trail && 1 <= |a.path| && |a.path| + a.limit == HOP_LIMIT + 1
    && 1 <= a.limit && a.path[0] == a.origin
  }

  // --------------------------------------------------------------- the mesh

  /** Every ACK transmission so far, and which node has taken which ACK past its replay window. */
  datatype Mesh = Mesh(air: seq<Ack>, taken: set<(nat, nat, nat)>)

  datatype Step =
    | Confirm(node: nat, dest: nat, num: nat)
    | Relay(node: nat, heard: nat, route: bool)

  /** A node confirms a frame, or hears some transmission and forwards it: the
      replay window passes one ACK of one signer at most once. */
  function Do(m: Mesh, s: Step): Mesh {
    match s
    case Confirm(node, dest, num) => m.(air := m.air + [Sent(node, dest, num)])
    case Relay(node, heard, route) =>
      if heard < |m.air| then
        var a := m.air[heard];
        var key := (node, a.origin, a.num);
        if key in m.taken || node == a.dest then m
        else
          var f := Forwarded(a, node, route);
          Mesh(if f.Some? then m.air + [f.value] else m.air, m.taken + {key})
      else m
  }

  function Run(m: Mesh, steps: seq<Step>): Mesh
    decreases |steps|
  {
    if steps == [] then m else Do(Run(m, steps[..|steps| - 1]), steps[|steps| - 1])
  }

  /** An ACK handed on by these relays, each with a route. */
  function Relayed(a: Ack, relays: seq<nat>): Option<Ack>
    decreases |relays|
  {
    if relays == [] then Some(a)
    else
      match Relayed(a, relays[..|relays| - 1])
      case Some(b) => Forwarded(b, relays[|relays| - 1], true)
      case None => None
  }

  /** Given routes, an ACK crosses exactly up to seven relays, and then names them all in order. */
  lemma {:induction false} SevenRelays(node: nat, dest: nat, num: nat, relays: seq<nat>)
    ensures var r := Relayed(Sent(node, dest, num), relays);
      && (r.Some? <==> |relays| <= 7)
      && (r.Some? ==> r.value == Ack(node, dest, num, 8 - |relays|, [node] + relays, [node] + relays))
    decreases |relays|
  {
    if relays != [] {
      SevenRelays(node, dest, num, relays[..|relays| - 1]);
      assert [node] + relays == [node] + relays[..|relays| - 1] + [relays[|relays| - 1]];
    } else {
      assert [node] + relays == [node];
    }
  }

  /** No relay appears twice after the origin, and each has taken the ACK. */
  predicate RelaysOnce(a: Ack, taken: set<(nat, nat, nat)>) {
    && (forall i, j :: 1 <= i < j < |a.trail| ==> a.trail[i] != a.trail[j])
    && (forall i :: 1 <= i < |a.trail| ==> (a.trail[i], a.origin, a.num) in taken && a.trail[i] != a.dest)
  }

  predicate Good(m: Mesh) {
    forall i :: 0 <= i < |m.air| ==> Faithful(m.air[i]) && RelaysOnce(m.air[i], m.taken)
  }

  lemma ForwardGood(a: Ack, node: nat, route: bool, taken: set<(nat, nat, nat)>)
    requires Faithful(a) && RelaysOnce(a, taken) && (node, a.origin, a.num) !in taken && node != a.dest
    ensures var f := Forwarded(a, node, route);
      f.Some? ==> Faithful(f.value) && RelaysOnce(f.value, taken + {(node, a.origin, a.num)})
  {
    var f := Forwarded(a, node, route);
    if f.Some? {
      var b := f.value;
      forall i | 1 <= i < |b.trail| ensures (b.trail[i], b.origin, b.num) in taken + {(node, a.origin, a.num)} && b.trail[i] != b.dest {
        if i < |a.trail| { assert b.trail[i] == a.trail[i]; }
      }
      forall i, j | 1 <= i < j < |b.trail| ensures b.trail[i] != b.trail[j] {
        if j == |a.trail| { assert (a.trail[i], a.origin, a.num) in taken; }
      }
    }
  }

  lemma StepGood(m: Mesh, s: Step)
    requires Good(m)
    ensures Good(Do(m, s))
  {
    if s.Relay? && s.heard < |m.air| {
      var a := m.air[s.heard];
      if (s.node, a.origin, a.num) !in m.taken && s.node != a.dest {
        ForwardGood(a, s.node, s.route, m.taken);
      }
    }
  }

  lemma {:induction false} GoodEveryRun(steps: seq<Step>)
    ensures Good(Run(Mesh([], {}), steps))
    decreases |steps|
  {
    hide Good, Do;
    if steps == [] {
      EmptyGood();
    } else {
      GoodEveryRun(steps[..|steps| - 1]);
      StepGood(Run(Mesh([], {}), steps[..|steps| - 1]), steps[|steps| - 1]);
    }
  }

  lemma EmptyGood()
    ensures Good(Mesh([], {}))
  {
  }

  /** On every ACK ever on the air: its relay path is exactly the nodes that
      transmitted it, the destination of the message first; no entry was ever
      dropped; path length and hop limit add up to nine; it was forwarded at
      most seven times; and no relay appears twice behind the origin. */
  lemma PathIsTrail(steps: seq<Step>, i: nat)
    requires i < |Run(Mesh([], {}), steps).air|
    ensures var a := Run(Mesh([], {}), steps).air[i];
      && a.path == a.trail && 0 < |a.trail| && a.trail[0] == a.origin
      && |a.path| + a.limit == 9 && |a.path| <= MAX_HOPS && |a.trail| - 1 <= 7
      && (forall j, k :: 1 <= j < k < |a.path| ==> a.path[j] != a.path[k])
  {
    hide Run;
    GoodEveryRun(steps);
  }

  // ------------------------------------------------------- at the sender

  function Reverse(p: seq<nat>): (r: seq<nat>)
    ensures |r| == |p| && forall i :: 0 <= i < |p| ==> r[i] == p[|p| - 1 - i]
  {
    if p == [] then [] else [p[|p| - 1]] + Reverse(p[..|p| - 1])
  }

  /** The loop of handle_ack that turns the path round for the UI. */
  method RouteHops(self: nat, path: array<nat>, hops: nat) returns (route: array<nat>, count: nat)
    requires hops <= path.Length
    ensures fresh(route) && count <= route.Length == ROUTE_MAX
    ensures hops < ROUTE_MAX ==> route[..count] == [self] + Reverse(path[..hops])
  {
    route := new nat[ROUTE_MAX](i => 0);
    route[0] := self;
    count := 1;
    var i: int := hops - 1;
    while i >= 0 && count < ROUTE_MAX
      invariant -1 <= i < hops && count == hops - i <= ROUTE_MAX
      invariant route[0] == self
      invariant forall k :: 1 <= k < count ==> route[k] == path[hops - k]
    {
      route[count] := path[i];
      count := count + 1;
      i := i - 1;
    }
    if hops < ROUTE_MAX {
      assert forall k :: 0 <= k < count ==> route[..count][k] == ([self] + Reverse(path[..hops]))[k];
    }
  }

  /** No ACK's path is cut short on display: sender first, message destination last. */
  lemma WholeRouteShown(steps: seq<Step>, i: nat, self: nat)
    requires i < |Run(Mesh([], {}), steps).air|
    ensures var a := Run(Mesh([], {}), steps).air[i];
      var shown := [self] + Reverse(a.path);
      |a.path| < ROUTE_MAX && shown[|shown| - 1] == a.origin
  {
    hide Run;
    PathIsTrail(steps, i);
    var a := Run(Mesh([], {}), steps).air[i];
    var shown := [self] + Reverse(a.path);
    assert shown[|shown| - 1] == Reverse(a.path)[|a.path| - 1];
  }

  // ------------------------------------------------------- the origin itself

  /** Nothing stops the origin from relaying its own ACK: a copy relayed by a
      neighbor and heard by the origin goes out a third time with the origin in
      the path twice. */
  lemma OriginTwice()
    ensures var m := Run(Mesh([], {}), [Confirm(1, 9, 5), Relay(2, 0, true), Relay(1, 1, true)]);
      |m.air| == 3 && m.air[2].path == [1, 2, 1]
  {
    var m0 := Mesh([], {});
    RunSnoc(m0, [], Confirm(1, 9, 5));
    RunSnoc(m0, [Confirm(1, 9, 5)], Relay(2, 0, true));
    RunSnoc(m0, [Confirm(1, 9, 5), Relay(2, 0, true)], Relay(1, 1, true));
    assert [] + [Confirm(1, 9, 5)] == [Confirm(1, 9, 5)];
    assert [Confirm(1, 9, 5)] + [Relay(2, 0, true)] == [Confirm(1, 9, 5), Relay(2, 0, true)];
    assert [Confirm(1, 9, 5), Relay(2, 0, true)] + [Relay(1, 1, true)] == [Confirm(1, 9, 5), Relay(2, 0, true), Relay(1, 1, true)];
    assert Run(m0, []) == m0;
    var m1 := Run(m0, [Confirm(1, 9, 5)]);
    assert m1.air == [Sent(1, 9, 5)] && m1.taken == {};
    var m2 := Run(m0, [Confirm(1, 9, 5), Relay(2, 0, true)]);
    assert m2.air[1].path == [1, 2] && m2.taken == {(2, 1, 5)};
  }

  predicate Distinct(p: seq<nat>) { forall j, k :: 0 <= j < k < |p| ==> p[j] != p[k] }

  /** Exactly when a relay keeps every node to one entry: when it is not the origin. */
  lemma ForwardDistinctIff(a: Ack, node: nat, route: bool, taken: set<(nat, nat, nat)>)
    requires Faithful(a) && RelaysOnce(a, taken) && (node, a.origin, a.num) !in taken && Distinct(a.path)
    requires Forwarded(a, node, route).Some?
    ensures Distinct(Forwarded(a, node, route).value.path) <==> node != a.origin
  {
    var b := Forwarded(a, node, route).value;
    assert b.path == a.path + [node];
    if node == a.origin {
      assert b.path[0] == b.path[|a.path|];
    } else {
      forall j | 0 <= j < |a.path| ensures a.path[j] != node {
        if j > 0 { assert (a.trail[j], a.origin, a.num) in taken; }
      }
    }
  }

  /** No node relays an ACK it signed itself. */
  predicate NotOwn(m: Mesh, steps: seq<Step>)
    decreases |steps|
  {
    steps != [] ==>
      var before, s := Run(m, steps[..|steps| - 1]), steps[|steps| - 1];
      NotOwn(m, steps[..|steps| - 1]) && (s.Relay? && s.heard < |before.air| ==> before.air[s.heard].origin != s.node)
  }

  /** Over every such run each node is in a path once. */
  lemma {:induction false} DistinctEveryRun(steps: seq<Step>, i: nat)
    requires NotOwn(Mesh([], {}), steps) && i < |Run(Mesh([], {}), steps).air|
    ensures Distinct(Run(Mesh([], {}), steps).air[i].path)
    decreases |steps|
  {
    if steps != [] {
      var before, s := steps[..|steps| - 1], steps[|steps| - 1];
      var m := Run(Mesh([], {}), before);
      if i < |m.air| {
        DistinctEveryRun(before, i);
      } else if s.Relay? {
        GoodEveryRun(before);
        DistinctEveryRun(before, s.heard);
        ForwardDistinctIff(m.air[s.heard], s.node, s.route, m.taken);
      }
    }
  }

  lemma RunSnoc(m: Mesh, steps: seq<Step>, s: Step)
    ensures Run(m, steps + [s]) == Do(Run(m, steps), s)
  {
    assert (steps + [s])[..|steps|] == steps;
  }

  // ------------------------------------------------------------ in place

  /** bramble_ack_t's relay fields. */
  class Packet {
    const path: array<nat>
    var hops: nat
    var limit: nat

    ghost predicate Valid()
      reads this
    {
      path.Length == MAX_HOPS && hops <= MAX_HOPS
    }

    /** As send_ack builds it. */
    constructor (node: nat)
      ensures Valid() && fresh(path) && path[..hops] == [node] && limit == HOP_LIMIT
    {
      path := new nat[MAX_HOPS](i => 0);
      hops, limit := 1, HOP_LIMIT;
      new;
      path[0] := node;
    }

    /** forward_ack: append, lower the limit, and send if there is a route. */
    method Forward(node: nat, route: bool, ghost a: Ack) returns (sent: bool)
      requires Valid() && a.path == path[..hops] && a.limit == limit
      modifies this, path
      ensures Valid() && sent == Forwarded(a, node, route).Some?
      ensures sent ==> path[..hops] == Forwarded(a, node, route).value.path && limit == Forwarded(a, node, route).value.limit
    {
      if hops < MAX_HOPS {
        path[hops] := node;
        hops := hops + 1;
      }
      if limit <= 1 {
        return false;
      }
      limit := limit - 1;
      sent := route;
    }
  }
}
