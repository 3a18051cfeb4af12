/**
 * The burst throttle on WebSocket notifications (main/ws_server.c): up to eight
 * sends in a burst, the counter starting over once 50 ms have passed since the
 * last send. Times are in microseconds.
 */
module NotifyThrottle {

  const BURST_MAX: nat := 8
  const GAP_US: nat := 50_000

  /** Some two neighboring sends from i to n - 1 are a gap apart. */
  predicate HasGap(sends: seq<nat>, i: nat, n: nat)
    requires n <= |sends|
  {
    exists k :: i <= k && k + 1 < n && sends[k + 1] >= sends[k] + GAP_US
  }

  predicate Ordered(sends: seq<nat>) { forall i, j :: 0 <= i < j < |sends| ==> sends[i] <= sends[j] }

  /** The counter covers the sends since the last gap, and never passes the limit. */
  predicate Covers(sends: seq<nat>, burst: nat) {
    && Ordered(sends) && burst <= BURST_MAX
    && (forall i :: 0 <= i && burst < |sends| - i ==> HasGap(sends, i, |sends|))
    && (forall i :: 0 <= i < |sends| ==> NineHaveGap(sends, i))
  }

  /** Of the nine sends from the i-th on, if there are nine, some two neighbors are a gap apart. */
  predicate NineHaveGap(sends: seq<nat>, i: nat) {
    i + BURST_MAX < |sends| ==> HasGap(sends, i, i + BURST_MAX + 1)
  }

  lemma GapStays(sends: seq<nat>, now: nat, i: nat, n: nat)
    requires n <= |sends| && HasGap(sends, i, n)
    ensures HasGap(sends + [now], i, n)
  {
    var k :| i <= k && k + 1 < n && sends[k + 1] >= sends[k] + GAP_US;
    assert (sends + [now])[k + 1] >= (sends + [now])[k] + GAP_US;
  }

  lemma GapWidens(sends: seq<nat>, i: nat, n: nat, m: nat)
    requires n <= m <= |sends| && HasGap(sends, i, n)
    ensures HasGap(sends, i, m)
  {
  }

  lemma SendCovers(sends: seq<nat>, burst: nat, now: nat)
    requires Covers(sends, burst) && (sends != [] ==> sends[|sends| - 1] <= now)
    requires burst < BURST_MAX || (sends != [] && now >= sends[|sends| - 1] + GAP_US)
    ensures var far := sends == [] || now >= sends[|sends| - 1] + GAP_US;
      Covers(sends + [now], if far then 1 else burst + 1)
  {
    var far := sends == [] || now >= sends[|sends| - 1] + GAP_US;
    var s' := sends + [now];
    var b' := if far then 1 else burst + 1;
    forall i | 0 <= i && b' < |s'| - i ensures HasGap(s', i, |s'|) {
      if far {
        var k := |sends| - 1;
        assert i <= k && s'[k + 1] >= s'[k] + GAP_US;
      } else {
        GapStays(sends, now, i, |sends|);
        GapWidens(s', i, |sends|, |s'|);
      }
    }
    forall i | 0 <= i < |s'| ensures NineHaveGap(s', i) {
      if i + BURST_MAX < |sends| {
        assert NineHaveGap(sends, i);
        GapStays(sends, now, i, i + BURST_MAX + 1);
      } else if i + BURST_MAX == |sends| {
        assert b' < |s'| - i;
      }
    }
  }

  // ---------------------------------------------------- runs and the window

  /** The two counters, and every send so far. */
  datatype St = St(burst: nat, last: nat, sends: seq<nat>)

  /** The decision of ws_notify_cb, for at least one client. */
  function Step(s: St, now: nat): St {
    var b := if now - s.last >= GAP_US then 0 else s.burst;
    if b >= BURST_MAX then s.(burst := b) else St(b + 1, now, s.sends + [now])
  }

  function Run(s: St, calls: seq<nat>): St
    decreases |calls|
  {
    if calls == [] then s else Step(Run(s, calls[..|calls| - 1]), calls[|calls| - 1])
  }

  predicate Good(s: St) {
    Covers(s.sends, s.burst) && (if s.sends == [] then s.burst == 0 && s.last == 0 else s.last == s.sends[|s.sends| - 1])
  }

  lemma StepGood(s: St, now: nat)
    requires Good(s) && s.last <= now
    ensures Good(Step(s, now)) && Step(s, now).last <= now
  {
    hide Covers;
    var b := if now - s.last >= GAP_US then 0 else s.burst;
    if b < BURST_MAX {
      SendCoversBy(s, now);
    }
  }

  lemma SendCoversBy(s: St, now: nat)
    requires Good(s) && s.last <= now && (s.burst < BURST_MAX || now - s.last >= GAP_US)
    ensures Covers(s.sends + [now], if now - s.last >= GAP_US then 1 else s.burst + 1)
  {
    SendCovers(s.sends, s.burst, now);
  }

  lemma {:induction false} RunGood(calls: seq<nat>)
    requires Ordered(calls)
    ensures var s := Run(St(0, 0, []), calls); Good(s) && s.last <= if calls == [] then 0 else calls[|calls| - 1]
    decreases |calls|
  {
    hide Step, Good;
    if calls == [] {
      StartGood();
    } else {
      RunGood(calls[..|calls| - 1]);
      StepGood(Run(St(0, 0, []), calls[..|calls| - 1]), calls[|calls| - 1]);
    }
  }

  lemma StartGood()
    ensures Good(St(0, 0, []))
  {
  }

  /** Eight sends on, at least a gap has passed. */
  lemma GapWithin(sends: seq<nat>, burst: nat, m: nat)
    requires Covers(sends, burst) && m + BURST_MAX < |sends|
    ensures sends[m + BURST_MAX] >= sends[m] + GAP_US
  {
    assert NineHaveGap(sends, m);
    var k :| m <= k && k + 1 < m + BURST_MAX + 1 && sends[k + 1] >= sends[k] + GAP_US;
    assert sends[m] <= sends[k] && sends[k + 1] <= sends[m + BURST_MAX];
  }

  /** 8q sends on, q gaps have. */
  lemma {:induction false} GapsAddUp(sends: seq<nat>, burst: nat, i: nat, q: nat)
    requires Covers(sends, burst) && i + BURST_MAX * q < |sends|
    ensures sends[i + BURST_MAX * q] >= sends[i] + q * GAP_US
    decreases q
  {
    hide Covers;
    if q > 0 {
      GapsAddUp(sends, burst, i, q - 1);
      GapWithin(sends, burst, i + BURST_MAX * (q - 1));
    }
  }

  /** However it is called, of any nine consecutive sends some two neighbors are 50 ms apart. */
  lemma NineSendsHaveAGap(calls: seq<nat>, i: nat)
    requires Ordered(calls)
    ensures var sends := Run(St(0, 0, []), calls).sends;
      i + 8 < |sends| ==> HasGap(sends, i, i + 9)
  {
    RunGood(calls);
    var sends := Run(St(0, 0, []), calls).sends;
    assert i < |sends| ==> NineHaveGap(sends, i);
  }

  /** However it is called, a closed window of W microseconds holds at most
      8 * (W / 50 ms + 1) sends. */
  lemma WindowBound(calls: seq<nat>, i: nat, m: nat, width: nat)
    requires Ordered(calls) && 0 < m
    requires var sends := Run(St(0, 0, []), calls).sends;
      i + m <= |sends| && sends[i + m - 1] - sends[i] <= width
    ensures m <= BURST_MAX * (width / GAP_US + 1)
  {
    hide Run;
    RunGood(calls);
    var s := Run(St(0, 0, []), calls);
    var q := (m - 1) / BURST_MAX;
    GapsAddUp(s.sends, s.burst, i, q);
    assert s.sends[i + BURST_MAX * q] <= s.sends[i + m - 1];
  }

  // ----------------------------------------------------- what is dropped

  /** The last b sends each came less than a gap after the one before. */
  predicate Streak(sends: seq<nat>, b: nat) {
    b <= |sends| && forall k :: |sends| - b <= k && k + 1 < |sends| ==> sends[k + 1] < sends[k] + GAP_US
  }

  /** The counter is the length of the streak that is running. */
  predicate Counts(s: St) {
    && Streak(s.sends, s.burst) && (s.sends != [] ==> s.burst > 0 && s.last == s.sends[|s.sends| - 1])
    && (s.burst < |s.sends| ==> s.sends[|s.sends| - s.burst] >= s.sends[|s.sends| - s.burst - 1] + GAP_US)
    && s.burst <= BURST_MAX
  }

  lemma StepCounts(s: St, now: nat)
    requires Counts(s)
    ensures Counts(Step(s, now))
  {
  }

  lemma {:induction false} CountsEveryRun(calls: seq<nat>)
    ensures Counts(Run(St(0, 0, []), calls))
    decreases |calls|
  {
    hide Step, Counts;
    if calls == [] {
      assert Counts(St(0, 0, [])) by { StartCounts(); }
    } else {
      CountsEveryRun(calls[..|calls| - 1]);
      StepCounts(Run(St(0, 0, []), calls[..|calls| - 1]), calls[|calls| - 1]);
    }
  }

  lemma StartCounts()
    ensures Counts(St(0, 0, []))
  {
  }

  /** After any calls, a call is dropped exactly if the last send is less than
      50 ms ago and is the eighth of sends each less than 50 ms after the one
      before; otherwise it is sent. */
  lemma DroppedIff(calls: seq<nat>, now: nat)
    ensures var s := Run(St(0, 0, []), calls);
      var dropped := |s.sends| >= 8 && now < s.sends[|s.sends| - 1] + 50_000
        && forall k :: |s.sends| - 8 <= k && k + 1 < |s.sends| ==> s.sends[k + 1] < s.sends[k] + 50_000;
      Step(s, now).sends == if dropped then s.sends else s.sends + [now]
  {
    hide Run;
    CountsEveryRun(calls);
    var s := Run(St(0, 0, []), calls);
    if |s.sends| >= 8 && s.burst < 8 {
      var k := |s.sends| - s.burst - 1;
      assert s.sends[k + 1] >= s.sends[k] + 50_000;
    }
  }

  /** The counters in place. */
  class Throttle {
    var burst: nat
    var last: nat
    ghost var sends: seq<nat>

    ghost function Abs(): St
      reads this
    {
      St(burst, last, sends)
    }

    constructor ()
      ensures Good(Abs()) && sends == []
    {
      burst, last, sends := 0, 0, [];
    }

    method Notify(now: nat) returns (sent: bool)
      requires Good(Abs()) && last <= now
      modifies this
      ensures Good(Abs()) && Abs() == Step(old(Abs()), now)
      ensures sends == old(sends) + (if sent then [now] else [])
    {
      StepGood(Abs(), now);
      if now - last >= GAP_US {
        burst := 0;
      }
      sent := burst < BURST_MAX;
      if sent {
        burst := burst + 1;
        last := now;
        sends := sends + [now];
      }
    }
  }
}
