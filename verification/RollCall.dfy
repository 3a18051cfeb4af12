/**
 * The member side of a roll-call (main/mesh_rollcall.c over
 * components/rollcall/rollcall.c): an announce is claimed once per
 * (id, initiator), waits in one of two pending slots, and is answered on the
 * air or abandoned and its claim given back. A sliding hour bounds the answers.
 *
 * The claim table's size is a parameter; the firmware's is 8.
 */
module RollCall {
  import opened Basics
  import opened Bits

  const PENDING_MAX: nat := 2
  const ANSWERS_MAX: nat := 12
  const WINDOW_MS: nat := 3_600_000

  /** What an answer is owed for. */
  datatype Call = Call(id: nat, initiator: nat)

  datatype Claim = Claim(used: bool, call: Call, at: nat)

  datatype Pending = Pending(used: bool, call: Call, round: nat, due: nat)

  datatype Charge = Charge(used: bool, at: nat)

  // ------------------------------------------------------------- the claims

  predicate Claimed(t: seq<Claim>, c: Call) { exists i :: 0 <= i < |t| && t[i].used && t[i].call == c }

  /** First used entry with the call, or |t|. */
  function FindClaim(t: seq<Claim>, c: Call, i: nat): (r: nat)
    requires i <= |t|
    ensures i <= r <= |t| && (r < |t| ==> t[r].used && t[r].call == c)
    ensures forall k :: i <= k < r ==> !(t[k].used && t[k].call == c)
    decreases |t| - i
  {
    if i == |t| || (t[i].used && t[i].call == c) then i else FindClaim(t, c, i + 1)
  }

  function FreeClaim(t: seq<Claim>, i: nat): (r: nat)
    requires i <= |t|
    ensures i <= r <= |t| && (r < |t| ==> !t[r].used)
    ensures forall k :: i <= k < r ==> t[k].used
    decreases |t| - i
  {
    if i == |t| || !t[i].used then i else FreeClaim(t, i + 1)
  }

  /** The scan for the oldest by age: its slot after n entries, last of equals. */
  function OldestClaim(t: seq<Claim>, now: nat, n: nat): (r: nat)
    requires n <= |t| && 0 < |t|
    ensures r < |t|
  {
    if n == 0 then 0
    else
      var o := OldestClaim(t, now, n - 1);
      if Age(now, t[n - 1].at) >= (if n == 1 then 0 else Age(now, t[o].at)) then n - 1 else o
  }

  /** Where a new claim goes. */
  function ClaimSlot(t: seq<Claim>, now: nat): (r: nat)
    requires 0 < |t|
    ensures r < |t|
  {
    if FreeClaim(t, 0) < |t| then FreeClaim(t, 0) else OldestClaim(t, now, |t|)
  }

  /** rollcall_seen_release. */
  function Unclaim(t: seq<Claim>, c: Call): (r: seq<Claim>)
    ensures |r| == |t|
  {
    var i := FindClaim(t, c, 0);
    if i == |t| then t else t[i := Claim(false, Call(0, 0), 0)]
  }

  // ------------------------------------------------------------- the budget

  predicate Charged(b: Charge, now: nat) { b.used && Age(now, b.at) < WINDOW_MS }

  /** rollcall_answer_budget_used. */
  function Used(b: seq<Charge>, now: nat): (r: nat)
    ensures r <= |b|
  {
    if b == [] then 0 else Used(b[..|b| - 1], now) + (if Charged(b[|b| - 1], now) then 1 else 0)
  }

  /** First entry that is free or expired, or |b|. */
  function Expired(b: seq<Charge>, now: nat, i: nat): (r: nat)
    requires i <= |b|
    ensures i <= r <= |b| && (r < |b| ==> !Charged(b[r], now))
    ensures forall k :: i <= k < r ==> Charged(b[k], now)
    decreases |b| - i
  {
    if i == |b| || !Charged(b[i], now) then i else Expired(b, now, i + 1)
  }

  function OldestCharge(b: seq<Charge>, now: nat, n: nat): (r: nat)
    requires n <= |b| && 0 < |b|
    ensures r < |b|
    ensures forall k :: 0 <= k < n ==> Age(now, b[k].at) <= Age(now, b[r].at)
  {
    if n == 0 then 0
    else
      var o := OldestCharge(b, now, n - 1);
      if n == 1 || Age(now, b[n - 1].at) >= Age(now, b[o].at) then n - 1 else o
  }

  /** rollcall_answer_budget_note. */
  function Note(b: seq<Charge>, now: nat): (r: seq<Charge>)
    requires 0 < |b|
    ensures |r| == |b|
  {
    var e := Expired(b, now, 0);
    b[(if e < |b| then e else OldestCharge(b, now, |b|)) := Charge(true, now)]
  }

  // ------------------------------------------------------------- the runtime

  /** `answers` is every answer put on the air. */
  datatype Answer = Answer(call: Call, at: nat)

  datatype Rt = Rt(seen: seq<Claim>, pending: seq<Pending>, budget: seq<Charge>, answers: seq<Answer>)

  predicate Shape(s: Rt) { 0 < |s.seen| && |s.pending| == PENDING_MAX && |s.budget| == ANSWERS_MAX }

  function FreePending(p: seq<Pending>, i: nat): (r: nat)
    requires i <= |p|
    ensures i <= r <= |p| && (r < |p| ==> !p[r].used)
    ensures forall k :: i <= k < r ==> p[k].used
    decreases |p| - i
  {
    if i == |p| || !p[i].used then i else FreePending(p, i + 1)
  }

  /** What an announce must find to be taken on. */
  predicate Takes(s: Rt, c: Call, now: nat)
    requires Shape(s)
  {
    && !Claimed(s.seen, c) && c.id != 0
    && FreePending(s.pending, 0) < PENDING_MAX
    && Used(s.budget, now) < ANSWERS_MAX
  }

  /** mesh_rollcall_handle_announce. */
  function Announce(s: Rt, c: Call, round: nat, now: nat, delay: nat): (r: Rt)
    requires Shape(s)
    ensures Shape(r)
  {
    if !Takes(s, c, now) then s
    else
      var k := ClaimSlot(s.seen, now);
      s.(seen := s.seen[k := Claim(true, c, now)],
         pending := s.pending[FreePending(s.pending, 0) := Pending(true, c, round, (now + delay) % WRAP)])
  }

  function NoPending(): Pending { Pending(false, Call(0, 0), 0, 0) }

  /** rollcall_send_pending: on the air and charged, or abandoned and unclaimed. */
  function SendPending(s: Rt, i: nat, ok: bool, now: nat): (r: Rt)
    requires Shape(s) && i < PENDING_MAX
    ensures Shape(r)
  {
    var c := s.pending[i].call;
    var s1 := s.(pending := s.pending[i := NoPending()]);
    if ok then s1.(budget := Note(s.budget, now), answers := s.answers + [Answer(c, now)])
    else s1.(seen := Unclaim(s.seen, c))
  }

  predicate Due(p: Pending, t: nat) { p.used && (t - p.due) % WRAP < HALF }

  /** mesh_rollcall_tick, member part, from slot i on; `oks` says which sends succeed. */
  function Tick(s: Rt, t: nat, i: nat, oks: seq<bool>): (r: Rt)
    requires Shape(s) && i <= PENDING_MAX
    ensures Shape(r)
    decreases PENDING_MAX - i
  {
    if i == PENDING_MAX then s
    else Tick(if Due(s.pending[i], t) then SendPending(s, i, i < |oks| && oks[i], t) else s, t, i + 1, oks)
  }

  datatype Event = Heard(call: Call, round: nat, delay: nat, now: nat) | Ticked(oks: seq<bool>, now: nat)

  function Do(s: Rt, e: Event): (r: Rt)
    requires Shape(s)
    ensures Shape(r)
  {
    match e
    case Heard(call, round, delay, now) => Announce(s, call, round, now, delay)
    case Ticked(oks, now) => Tick(s, now, 0, oks)
  }

  function Run(s: Rt, es: seq<Event>): (r: Rt)
    requires Shape(s)
    ensures Shape(r)
    decreases |es|
  {
    if es == [] then s else Do(Run(s, es[..|es| - 1]), es[|es| - 1])
  }

  function Start(claims: nat): Rt {
    Rt(seq(claims, i => Claim(false, Call(0, 0), 0)), seq(PENDING_MAX, i => NoPending()),
       seq(ANSWERS_MAX, i => Charge(false, 0)), [])
  }

  // ----------------------------------------------------------- answer once

  predicate Answered(s: Rt, c: Call) { exists i :: 0 <= i < |s.answers| && s.answers[i].call == c }

  predicate Waiting(s: Rt, c: Call) { exists i :: 0 <= i < |s.pending| && s.pending[i].used && s.pending[i].call == c }

  /** No call is claimed twice. */
  predicate OneClaim(s: Rt) {
    Shape(s) && forall i, j :: 0 <= i < j < |s.seen| && s.seen[i].used && s.seen[j].used ==> s.seen[i].call != s.seen[j].call
  }

  /** The call is waiting once, or answered once, or neither; and it is claimed just if it is one of these. */
  ghost predicate Exact(s: Rt, c: Call) {
    && OneClaim(s)
    && (forall i, j :: 0 <= i < j < |s.pending| && s.pending[i].used && s.pending[j].used && s.pending[i].call == c ==> s.pending[j].call != c)
    && (forall i, j :: 0 <= i < j < |s.answers| && s.answers[i].call == c ==> s.answers[j].call != c)
    && (Claimed(s.seen, c) <==> Waiting(s, c) || Answered(s, c))
    && !(Waiting(s, c) && Answered(s, c))
  }

  /** The event takes an announce on into the slot of c's claim. */
  predicate Drops(s: Rt, e: Event, c: Call)
    requires Shape(s)
  {
    e.Heard? && Takes(s, e.call, e.now) && var x := s.seen[ClaimSlot(s.seen, e.now)]; x.used && x.call == c
  }

  /** Claims after one is written over a slot that is not d's. */
  lemma ClaimedAfter(t: seq<Claim>, k: nat, c: Call, now: nat, d: Call)
    requires k < |t| && !(t[k].used && t[k].call == d)
    ensures Claimed(t[k := Claim(true, c, now)], d) <==> d == c || Claimed(t, d)
  {
    var t' := t[k := Claim(true, c, now)];
    assert t'[k].call == c;
    if Claimed(t, d) {
      var i :| 0 <= i < |t| && t[i].used && t[i].call == d;
      assert t'[i] == t[i];
    }
  }

  lemma UnclaimedAfter(t: seq<Claim>, c: Call, d: Call)
    requires forall i, j :: 0 <= i < j < |t| && t[i].used && t[j].used ==> t[i].call != t[j].call
    ensures Claimed(Unclaim(t, c), d) <==> d != c && Claimed(t, d)
  {
    var t' := Unclaim(t, c);
    if d != c && Claimed(t, d) {
      var i :| 0 <= i < |t| && t[i].used && t[i].call == d;
      assert t'[i] == t[i];
    }
  }

  lemma AnnounceOneClaim(s: Rt, c: Call, round: nat, now: nat, delay: nat)
    requires OneClaim(s)
    ensures OneClaim(Announce(s, c, round, now, delay))
  {
    if Takes(s, c, now) {
      forall i | 0 <= i < |s.seen| && s.seen[i].used ensures s.seen[i].call != c { assert Claimed(s.seen, s.seen[i].call); }
    }
  }

  lemma AnnounceExact(s: Rt, e: Event, c: Call)
    requires Exact(s, c) && e.Heard? && !Drops(s, e, c)
    ensures Exact(Announce(s, e.call, e.round, e.now, e.delay), c)
  {
    hide Used;
    AnnounceOneClaim(s, e.call, e.round, e.now, e.delay);
    if Takes(s, e.call, e.now) {
      var s' := Announce(s, e.call, e.round, e.now, e.delay);
      var f := FreePending(s.pending, 0);
      ClaimedAfter(s.seen, ClaimSlot(s.seen, e.now), e.call, e.now, c);
      assert s'.pending[f].used && s'.pending[f].call == e.call;
      if Waiting(s, c) {
        var i :| 0 <= i < PENDING_MAX && s.pending[i].used && s.pending[i].call == c;
        assert s'.pending[i] == s.pending[i];
      }
      if e.call == c {
        forall i | 0 <= i < PENDING_MAX && s.pending[i].used ensures s.pending[i].call != c { assert !Waiting(s, c); }
      }
      assert Answered(s', c) <==> Answered(s, c);
    }
  }

  lemma SendOneClaim(s: Rt, i: nat, ok: bool, now: nat)
    requires OneClaim(s) && i < PENDING_MAX
    ensures OneClaim(SendPending(s, i, ok, now))
  {
  }

  lemma SendExact(s: Rt, i: nat, ok: bool, now: nat, c: Call)
    requires Exact(s, c) && i < PENDING_MAX && s.pending[i].used
    ensures Exact(SendPending(s, i, ok, now), c)
  {
    var s' := SendPending(s, i, ok, now);
    var d := s.pending[i].call;
    SendOneClaim(s, i, ok, now);
    assert Waiting(s, d);
    assert Waiting(s', c) <==> d != c && Waiting(s, c) by {
      if d != c && Waiting(s, c) {
        var k :| 0 <= k < PENDING_MAX && s.pending[k].used && s.pending[k].call == c;
        assert s'.pending[k] == s.pending[k];
      }
    }
    if ok {
      assert s'.answers[|s.answers|].call == d;
      if Answered(s, c) {
        var k :| 0 <= k < |s.answers| && s.answers[k].call == c;
        assert s'.answers[k] == s.answers[k];
      }
      if d == c { forall k | 0 <= k < |s.answers| ensures s.answers[k].call != c { assert !Answered(s, c); } }
    } else {
      UnclaimedAfter(s.seen, d, c);
      assert Answered(s', c) <==> Answered(s, c);
    }
  }

  lemma {:induction false} TickExact(s: Rt, t: nat, i: nat, oks: seq<bool>, c: Call)
    requires Exact(s, c) && i <= PENDING_MAX
    ensures Exact(Tick(s, t, i, oks), c)
    decreases PENDING_MAX - i
  {
    hide Exact, Due, SendPending;
    if i < PENDING_MAX {
      ShapeOf(s, c);
      DueUsed(s.pending[i], t);
      if Due(s.pending[i], t) { SendExact(s, i, i < |oks| && oks[i], t, c); }
      TickExact(if Due(s.pending[i], t) then SendPending(s, i, i < |oks| && oks[i], t) else s, t, i + 1, oks, c);
    }
  }

  lemma ShapeOf(s: Rt, c: Call)
    requires Exact(s, c)
    ensures Shape(s)
  {
  }

  lemma DueUsed(p: Pending, t: nat)
    ensures Due(p, t) ==> p.used
  {
  }

  lemma {:induction false} TickOneClaim(s: Rt, t: nat, i: nat, oks: seq<bool>)
    requires OneClaim(s) && i <= PENDING_MAX
    ensures OneClaim(Tick(s, t, i, oks))
    decreases PENDING_MAX - i
  {
    hide SendPending, Due;
    if i < PENDING_MAX {
      SendOneClaim(s, i, i < |oks| && oks[i], t);
      TickOneClaim(if Due(s.pending[i], t) then SendPending(s, i, i < |oks| && oks[i], t) else s, t, i + 1, oks);
    }
  }

  lemma {:induction false} OneClaimEveryRun(claims: nat, es: seq<Event>)
    requires 0 < claims
    ensures OneClaim(Run(Start(claims), es))
    decreases |es|
  {
    hide Announce, Tick;
    if es != [] {
      var before, e := es[..|es| - 1], es[|es| - 1];
      OneClaimEveryRun(claims, before);
      match e
      case Heard(call, round, delay, now) => AnnounceOneClaim(Run(Start(claims), before), call, round, now, delay);
      case Ticked(oks, now) => TickOneClaim(Run(Start(claims), before), now, 0, oks);
    }
  }

  /** In the run nobody's claim was written over c's. */
  predicate ClaimStays(s: Rt, es: seq<Event>, c: Call)
    requires Shape(s)
    decreases |es|
  {
    es != [] ==> ClaimStays(s, es[..|es| - 1], c) && !Drops(Run(s, es[..|es| - 1]), es[|es| - 1], c)
  }

  lemma StartExact(claims: nat, c: Call)
    requires 0 < claims
    ensures Exact(Start(claims), c)
  {
  }

  lemma {:induction false} ExactEveryRun(claims: nat, es: seq<Event>, c: Call)
    requires 0 < claims && ClaimStays(Start(claims), es, c)
    ensures Exact(Run(Start(claims), es), c)
    decreases |es|
  {
    hide Exact, Announce, Tick, Drops;
    StartExact(claims, c);
    if es != [] {
      var before, e := es[..|es| - 1], es[|es| - 1];
      ExactEveryRun(claims, before, c);
      match e
      case Heard(call, round, delay, now) => AnnounceExact(Run(Start(claims), before), e, c);
      case Ticked(oks, now) => TickExact(Run(Start(claims), before), now, 0, oks, c);
    }
  }

  /** Over every run in which a call's own claim is not recycled: the call is
      answered on the air at most once, never both answered and waiting, and
      claimed, and so refused, just while it is one of the two. Other calls'
      claims may come and go. */
  lemma AnswerOnce(claims: nat, es: seq<Event>, i: nat, j: nat, c: Call)
    requires 0 < claims && ClaimStays(Start(claims), es, c)
    ensures var s := Run(Start(claims), es);
      && (i < j < |s.answers| ==> !(s.answers[i].call == c && s.answers[j].call == c))
      && (Claimed(s.seen, c) <==> Waiting(s, c) || Answered(s, c))
      && !(Waiting(s, c) && Answered(s, c))
  {
    hide Run, ClaimStays;
    ExactEveryRun(claims, es, c);
  }

  /** Exactly which event lets an answered call be taken on again, where a slot
      and the budget allow: the one that recycles its claim. */
  lemma TakenAgainIff(s: Rt, e: Event, c: Call, now: nat)
    requires Exact(s, c) && Answered(s, c) && c.id != 0
    requires FreePending(Do(s, e).pending, 0) < PENDING_MAX && Used(Do(s, e).budget, now) < ANSWERS_MAX
    ensures Takes(Do(s, e), c, now) <==> Drops(s, e, c)
  {
    hide Used, Tick;
    var s' := Do(s, e);
    if Drops(s, e, c) {
      var k := ClaimSlot(s.seen, e.now);
      assert Claimed(s.seen, c) && e.call != c;
      assert forall i :: 0 <= i < |s.seen| && i != k && s.seen[i].used ==> s.seen[i].call != c;
    } else {
      if e.Heard? { AnnounceExact(s, e, c); } else { TickExact(s, e.now, 0, e.oks, c); TickAnswers(s, e.now, 0, e.oks); }
      var i :| 0 <= i < |s.answers| && s.answers[i].call == c;
      assert s'.answers[i] == s.answers[i];
    }
  }

  lemma {:induction false} TickAnswers(s: Rt, t: nat, i: nat, oks: seq<bool>)
    requires Shape(s) && i <= PENDING_MAX
    ensures s.answers <= Tick(s, t, i, oks).answers
    decreases PENDING_MAX - i
  {
    hide Note, Unclaim, Due;
    if i < PENDING_MAX {
      TickAnswers(if Due(s.pending[i], t) then SendPending(s, i, i < |oks| && oks[i], t) else s, t, i + 1, oks);
    }
  }

  /** An abandoned answer can be retried: its claim is gone, and the next
      announce of it is taken on if a slot and the budget allow. */
  lemma AbandonedIsRetried(claims: nat, es: seq<Event>, i: nat, t: nat, round: nat, now: nat, delay: nat)
    requires 0 < claims && i < PENDING_MAX
    requires Run(Start(claims), es).pending[i].used && Run(Start(claims), es).pending[i].call.id != 0
    ensures var s := Run(Start(claims), es);
      var c, s' := s.pending[i].call, SendPending(s, i, false, t);
      && !Claimed(s'.seen, c)
      && (Used(s'.budget, now) < ANSWERS_MAX ==> Waiting(Announce(s', c, round, now, delay), c))
  {
    hide Run, Used;
    OneClaimEveryRun(claims, es);
    var s := Run(Start(claims), es);
    var c, s' := s.pending[i].call, SendPending(s, i, false, t);
    UnclaimedAfter(s.seen, c, c);
    var f := FreePending(s'.pending, 0);
    assert f < PENDING_MAX by { assert !s'.pending[i].used; }
    if Used(s'.budget, now) < ANSWERS_MAX {
      assert Announce(s', c, round, now, delay).pending[f].call == c;
    }
  }

  // ------------------------------------------------------ answers per window

  /** Answers not yet an hour old at `now`. */
  function Recent(a: seq<Answer>, now: nat): (r: nat)
    ensures r <= |a|
  {
    if a == [] then 0 else Recent(a[..|a| - 1], now) + (if now - a[|a| - 1].at < WINDOW_MS then 1 else 0)
  }

  function Min(a: nat, b: nat): nat { if a < b then a else b }

  function PendingCount(p: seq<Pending>): (r: nat)
    requires |p| == PENDING_MAX
    ensures r <= PENDING_MAX
  {
    (if p[0].used then 1 else 0) + (if p[1].used then 1 else 0)
  }

  /** As of time t the budget counts the recent answers up to its size, and
      recent answers plus promises stay within `cap`. */
  ghost predicate Metered(s: Rt, t: nat, cap: nat) {
    && Shape(s) && t < WRAP
    && (forall i :: 0 <= i < |s.answers| ==> s.answers[i].at <= t)
    && (forall i :: 0 <= i < ANSWERS_MAX ==> s.budget[i].at <= t)
    && (forall i, j :: 0 <= i < j < |s.answers| ==> s.answers[i].at <= s.answers[j].at)
    && (forall now: nat :: t <= now < WRAP ==> Used(s.budget, now) == Min(Recent(s.answers, now), ANSWERS_MAX))
    && Recent(s.answers, t) + PendingCount(s.pending) <= cap
    && (forall i, j :: 0 <= i <= j < |s.answers| && s.answers[j].at - s.answers[i].at < WINDOW_MS ==>
          j - i + 1 <= cap)
  }

  lemma {:induction false} UsedUpdate(b: seq<Charge>, k: nat, x: Charge, now: nat)
    requires k < |b|
    ensures Used(b[k := x], now) == Used(b, now) - (if Charged(b[k], now) then 1 else 0) + (if Charged(x, now) then 1 else 0)
    decreases |b|
  {
    hide Charged;
    var n := |b| - 1;
    if k == n {
      assert b[k := x][..n] == b[..n];
    } else {
      assert b[k := x][..n] == b[..n][k := x];
      UsedUpdate(b[..n], k, x, now);
    }
  }

  lemma {:induction false} AllCharged(b: seq<Charge>, now: nat)
    requires forall i :: 0 <= i < |b| ==> Charged(b[i], now)
    ensures Used(b, now) == |b|
  {
    if b != [] { AllCharged(b[..|b| - 1], now); }
  }

  lemma {:induction false} NoneRecent(a: seq<Answer>, now: nat)
    requires forall i :: 0 <= i < |a| ==> now - a[i].at >= WINDOW_MS
    ensures Recent(a, now) == 0
  {
    if a != [] { NoneRecent(a[..|a| - 1], now); }
  }

  lemma {:induction false} NoneCharged(b: seq<Charge>, now: nat)
    requires forall i :: 0 <= i < |b| ==> !Charged(b[i], now)
    ensures Used(b, now) == 0
  {
    if b != [] { NoneCharged(b[..|b| - 1], now); }
  }

  /** Without wrap, an entry counts for exactly an hour. */
  lemma ChargedIs(b: Charge, now: nat)
    requires b.at <= now < WRAP
    ensures Charged(b, now) <==> b.used && now - b.at < WINDOW_MS
    ensures Age(now, b.at) == now - b.at
  {
  }

  /** The slot an answer is charged to: one that no longer counts, or, if all do, one as old as any. */
  lemma NoteSlot(b: seq<Charge>, t: nat) returns (k: nat)
    requires |b| == ANSWERS_MAX && t < WRAP && forall i :: 0 <= i < |b| ==> b[i].at <= t
    ensures k < |b| && Note(b, t) == b[k := Charge(true, t)]
    ensures !Charged(b[k], t) || forall i :: 0 <= i < |b| ==> b[i].used && b[k].at <= b[i].at
  {
    var e := Expired(b, t, 0);
    k := if e < |b| then e else OldestCharge(b, t, |b|);
    forall i | 0 <= i < |b| ensures Age(t, b[i].at) == t - b[i].at { ChargedIs(b[i], t); }
  }

  lemma NoteUsed(b: seq<Charge>, t: nat, now: nat)
    requires |b| == ANSWERS_MAX && t <= now < WRAP && forall i :: 0 <= i < |b| ==> b[i].at <= t
    ensures Used(Note(b, t), now) == if now - t >= WINDOW_MS then 0 else Min(Used(b, now) + 1, ANSWERS_MAX)
  {
    hide Charged, Age, Note;
    var k := NoteSlot(b, t);
    forall i | 0 <= i < |b| ensures Charged(b[i], now) <==> b[i].used && now - b[i].at < WINDOW_MS { ChargedIs(b[i], now); }
    ChargedIs(b[k], t);
    ChargedIs(Charge(true, t), now);
    UsedUpdate(b, k, Charge(true, t), now);
    if now - t >= WINDOW_MS {
      NoneCharged(b, now);
    } else if Charged(b[k], now) {
      AllCharged(b, now);
    } else {
      NotAllCharged(b, k, now);
    }
  }

  lemma RecentAppend(a: seq<Answer>, x: Answer, now: nat)
    requires forall i :: 0 <= i < |a| ==> a[i].at <= x.at
    ensures Recent(a + [x], now) == if now - x.at >= WINDOW_MS then 0 else Recent(a, now) + 1
  {
    assert (a + [x])[..|a|] == a;
    if now - x.at >= WINDOW_MS { NoneRecent(a, now); }
  }

  /** An entry that does not count leaves room for one. */
  lemma NotAllCharged(b: seq<Charge>, k: nat, now: nat)
    requires k < |b| && !Charged(b[k], now)
    ensures Used(b, now) < |b|
  {
    UsedUpdate(b, k, Charge(true, now), now);
    assert Used(b[k := Charge(true, now)], now) <= |b|;
  }

  lemma {:induction false} RecentFalls(a: seq<Answer>, t: nat, now: nat)
    requires t <= now
    ensures Recent(a, now) <= Recent(a, t)
  {
    if a != [] { RecentFalls(a[..|a| - 1], t, now); }
  }

  /** Time passing changes nothing but the count. */
  lemma MeteredLater(s: Rt, t: nat, t': nat, cap: nat)
    requires Metered(s, t, cap) && t <= t' < WRAP
    ensures Metered(s, t', cap)
  {
    RecentFalls(s.answers, t, t');
  }

  /** Room for one more answer, counting those already promised. */
  predicate Room(s: Rt, t: nat)
    requires Shape(s)
  {
    Used(s.budget, t) + PendingCount(s.pending) < ANSWERS_MAX
  }

  /** The most a window can hold without, and with, that look at the promises. */
  const LOOSE: nat := ANSWERS_MAX + PENDING_MAX - 1

  lemma AnnounceMetered(s: Rt, t: nat, c: Call, round: nat, delay: nat, cap: nat)
    requires Metered(s, t, cap) && (cap == LOOSE || (cap == ANSWERS_MAX && (Takes(s, c, t) ==> Room(s, t))))
    ensures Metered(Announce(s, c, round, t, delay), t, cap)
  {
    hide Used, Recent;
    assert Used(s.budget, t) == Min(Recent(s.answers, t), ANSWERS_MAX);
  }

  /** Neighbors in the log of answers within one window all count as recent. */
  lemma {:induction false} SpanIsRecent(a: seq<Answer>, i: nat)
    requires i < |a| && forall k, l :: 0 <= k < l < |a| ==> a[k].at <= a[l].at
    requires a[|a| - 1].at - a[i].at < WINDOW_MS
    ensures |a| - i <= Recent(a, a[|a| - 1].at)
  {
    RecentFrom(a, i, a[|a| - 1].at);
  }

  lemma {:induction false} RecentFrom(a: seq<Answer>, i: nat, now: nat)
    requires i <= |a| && forall k :: i <= k < |a| ==> now - a[k].at < WINDOW_MS
    ensures |a| - i <= Recent(a, now)
    decreases |a|
  {
    if i < |a| { RecentFrom(a[..|a| - 1], i, now); }
  }

  lemma SendMetered(s: Rt, t: nat, i: nat, ok: bool, cap: nat)
    requires Metered(s, t, cap) && i < PENDING_MAX && s.pending[i].used
    ensures Metered(SendPending(s, i, ok, t), t, cap)
  {
    hide Used, Recent, Note;
    var s' := SendPending(s, i, ok, t);
    if ok {
      var x := Answer(s.pending[i].call, t);
      forall now: nat | t <= now < WRAP ensures Used(s'.budget, now) == Min(Recent(s'.answers, now), ANSWERS_MAX) {
        NoteUsed(s.budget, t, now);
        RecentAppend(s.answers, x, now);
      }
      RecentAppend(s.answers, x, t);
      var k := NoteSlot(s.budget, t);
      forall i, j | 0 <= i <= j < |s'.answers| && s'.answers[j].at - s'.answers[i].at < WINDOW_MS
        ensures j - i + 1 <= cap
      {
        if j == |s.answers| { SpanIsRecent(s'.answers, i); }
      }
    }
  }

  lemma {:induction false} TickMetered(s: Rt, t: nat, i: nat, oks: seq<bool>, cap: nat)
    requires Metered(s, t, cap) && i <= PENDING_MAX
    ensures Metered(Tick(s, t, i, oks), t, cap)
    decreases PENDING_MAX - i
  {
    hide Metered, SendPending, Due;
    if i < PENDING_MAX {
      MeteredShape(s, t, cap);
      DueUsed(s.pending[i], t);
      if Due(s.pending[i], t) { SendMetered(s, t, i, i < |oks| && oks[i], cap); }
      TickMetered(if Due(s.pending[i], t) then SendPending(s, i, i < |oks| && oks[i], t) else s, t, i + 1, oks, cap);
    }
  }

  lemma MeteredShape(s: Rt, t: nat, cap: nat)
    requires Metered(s, t, cap)
    ensures Shape(s)
  {
  }

  /** A clock that neither runs backwards nor wraps. */
  predicate Proper(es: seq<Event>) {
    && (forall i :: 0 <= i < |es| ==> es[i].now < WRAP)
    && (forall i, j :: 0 <= i < j < |es| ==> es[i].now <= es[j].now)
  }

  /** Every announce the run took on found room beside the promises. */
  predicate RunGuarded(s: Rt, es: seq<Event>)
    requires Shape(s)
    decreases |es|
  {
    es != [] ==>
      var before, e := Run(s, es[..|es| - 1]), es[|es| - 1];
      && RunGuarded(s, es[..|es| - 1])
      && (e.Heard? && Takes(before, e.call, e.now) ==> Room(before, e.now))
  }

  lemma StartMetered(claims: nat, cap: nat)
    requires 0 < claims
    ensures Metered(Start(claims), 0, cap)
  {
    forall now ensures Used(Start(claims).budget, now) == 0 { NoneCharged(Start(claims).budget, now); }
  }

  lemma {:induction false} MeteredEveryRun(claims: nat, es: seq<Event>, cap: nat)
    requires 0 < claims && Proper(es) && (cap == LOOSE || (cap == ANSWERS_MAX && RunGuarded(Start(claims), es)))
    ensures Metered(Run(Start(claims), es), if es == [] then 0 else es[|es| - 1].now, cap)
    decreases |es|
  {
    hide Metered, Announce, Tick, Takes, Room;
    StartMetered(claims, cap);
    if es != [] {
      var before, e := es[..|es| - 1], es[|es| - 1];
      MeteredEveryRun(claims, before, cap);
      var s := Run(Start(claims), before);
      MeteredLater(s, if before == [] then 0 else before[|before| - 1].now, e.now, cap);
      match e
      case Heard(call, round, delay, now) => AnnounceMetered(s, now, call, round, delay, cap);
      case Ticked(oks, now) => TickMetered(s, now, 0, oks, cap);
    }
  }

  // ------------------------------------------------------- no answer too soon

  /** The wrapping comparison: never due before its time, and due for half a turn after. */
  lemma DueMeaning(p: Pending, now: nat, delay: nat, t: nat)
    requires p.used && p.due == (now + delay) % WRAP && delay <= HALF && now <= t
    ensures Due(p, t) ==> t >= now + delay
    ensures now + delay <= t < now + delay + HALF ==> Due(p, t)
  {
    var x := t - (now + delay);
    var turns := (now + delay) / WRAP;
    assert t - p.due == x + turns * WRAP;
    TurnsAside(x, turns);
  }

  lemma {:induction false} TurnsAside(x: int, turns: nat)
    ensures (x + turns * WRAP) % WRAP == x % WRAP
  {
    if turns > 0 {
      TurnsAside(x, turns - 1);
      assert x + turns * WRAP == (x + (turns - 1) * WRAP) + WRAP;
    }
  }

  /** The entry waits for an announce heard by then. */
  predicate Awaits(es: seq<Event>, p: Pending) {
    exists j :: 0 <= j < |es| && es[j].Heard? && es[j].call == p.call && p.due == (es[j].now + es[j].delay) % WRAP
  }

  /** The answer follows an announce of its call, no sooner than the delay drawn for it. */
  predicate Follows(es: seq<Event>, a: Answer) {
    exists j :: 0 <= j < |es| && es[j].Heard? && es[j].call == a.call && a.at >= es[j].now + es[j].delay
  }

  predicate InTime(es: seq<Event>, s: Rt) {
    && (forall i :: 0 <= i < |s.pending| && s.pending[i].used ==> Awaits(es, s.pending[i]))
    && (forall i :: 0 <= i < |s.answers| ==> Follows(es, s.answers[i]))
  }

  /** Announces carry a delay of at most half a turn, and none is heard after t. */
  predicate HeardBy(es: seq<Event>, t: nat) { forall j :: 0 <= j < |es| ==> es[j].now <= t && (es[j].Heard? ==> es[j].delay <= HALF) }

  lemma {:induction false} TickInTime(es: seq<Event>, s: Rt, t: nat, i: nat, oks: seq<bool>)
    requires Shape(s) && i <= PENDING_MAX && InTime(es, s) && HeardBy(es, t)
    ensures InTime(es, Tick(s, t, i, oks))
    decreases PENDING_MAX - i
  {
    hide Unclaim, Note, Due;
    if i < PENDING_MAX {
      var p := s.pending[i];
      DueUsed(p, t);
      if Due(p, t) {
        var j :| 0 <= j < |es| && es[j].Heard? && es[j].call == p.call && p.due == (es[j].now + es[j].delay) % WRAP;
        DueMeaning(p, es[j].now, es[j].delay, t);
        assert Follows(es, Answer(p.call, t));
        TickInTime(es, SendPending(s, i, i < |oks| && oks[i], t), t, i + 1, oks);
      } else {
        TickInTime(es, s, t, i + 1, oks);
      }
    }
  }

  lemma InTimeLater(es: seq<Event>, e: Event, s: Rt)
    requires InTime(es, s)
    ensures InTime(es + [e], s)
  {
    forall i | 0 <= i < |s.pending| && s.pending[i].used ensures Awaits(es + [e], s.pending[i]) {
      var p := s.pending[i];
      var j :| 0 <= j < |es| && es[j].Heard? && es[j].call == p.call && p.due == (es[j].now + es[j].delay) % WRAP;
      assert (es + [e])[j] == es[j];
    }
    forall i | 0 <= i < |s.answers| ensures Follows(es + [e], s.answers[i]) {
      var a := s.answers[i];
      var j :| 0 <= j < |es| && es[j].Heard? && es[j].call == a.call && a.at >= es[j].now + es[j].delay;
      assert (es + [e])[j] == es[j];
    }
  }

  lemma AnnounceInTime(es: seq<Event>, s: Rt, e: Event)
    requires Shape(s) && InTime(es + [e], s) && e.Heard?
    ensures InTime(es + [e], Do(s, e))
  {
    hide Takes, ClaimSlot;
    assert (es + [e])[|es|] == e;
    assert Awaits(es + [e], Pending(true, e.call, e.round, (e.now + e.delay) % WRAP));
    hide Awaits, Follows;
  }

  /** Over every run on a clock that does not run backwards, no answer leaves
      before an announce of its call was heard and the delay drawn for it ran out. */
  lemma {:induction false} NeverTooSoon(claims: nat, es: seq<Event>)
    requires 0 < claims && (forall i, j :: 0 <= i < j < |es| ==> es[i].now <= es[j].now)
    requires forall j :: 0 <= j < |es| && es[j].Heard? ==> es[j].delay <= HALF
    ensures InTime(es, Run(Start(claims), es))
    decreases |es|
  {
    hide Do, InTime;
    if es == [] {
      assert InTime(es, Start(claims)) by { NothingYet(claims); }
    } else {
      var before, e := es[..|es| - 1], es[|es| - 1];
      NeverTooSoon(claims, before);
      var s := Run(Start(claims), before);
      InTimeLater(before, e, s);
      assert before + [e] == es;
      if e.Heard? { AnnounceInTime(before, s, e); } else { TickedInTime(es, s, e); }
    }
  }

  lemma TickedInTime(es: seq<Event>, s: Rt, e: Event)
    requires Shape(s) && InTime(es, s) && e.Ticked? && HeardBy(es, e.now)
    ensures InTime(es, Do(s, e))
  {
    hide Tick;
    TickInTime(es, s, e.now, 0, e.oks);
  }

  lemma NothingYet(claims: nat)
    ensures InTime([], Start(claims))
  {
  }

  /** Over every run, any 14 consecutive answers span at least an hour: a window
      holds at most the cap plus the pending queue's depth less one. */
  lemma AnswersPerWindow(claims: nat, es: seq<Event>, i: nat, j: nat)
    requires 0 < claims && Proper(es)
    ensures var a := Run(Start(claims), es).answers;
      i <= j < |a| && a[j].at - a[i].at < WINDOW_MS ==> j - i + 1 <= 13
  {
    hide Run, RunGuarded;
    MeteredEveryRun(claims, es, LOOSE);
  }

  /** The promised twelve hold over every run whose announces were taken on only
      while charges and promises together were short of the cap. */
  lemma TwelvePerWindow(claims: nat, es: seq<Event>, i: nat, j: nat)
    requires 0 < claims && Proper(es) && RunGuarded(Start(claims), es)
    ensures var a := Run(Start(claims), es).answers;
      i <= j < |a| && a[j].at - a[i].at < WINDOW_MS ==> j - i + 1 <= 12
  {
    hide Run, RunGuarded;
    MeteredEveryRun(claims, es, ANSWERS_MAX);
  }

  /** Both pending slots due and sent. */
  lemma BothSent(s: Rt, t: nat)
    requires Shape(s) && Due(s.pending[0], t) && (s.pending[1].used ==> Due(s.pending[1], t))
    ensures var s' := Tick(s, t, 0, [true, true]);
      && PendingCount(s'.pending) == 0 && s'.seen == s.seen
      && s'.answers == s.answers + [Answer(s.pending[0].call, t)] + (if s.pending[1].used then [Answer(s.pending[1].call, t)] else [])
  {
    hide Note, Used, Recent, Due;
    DueUsed(s.pending[1], t);
    var s1 := SendPending(s, 0, true, t);
    assert s1.pending[1] == s.pending[1];
    assert Tick(s, t, 0, [true, true]) == Tick(s1, t, 1, [true, true]);
    var s2 := if s.pending[1].used then SendPending(s1, 1, true, t) else s1;
    assert Tick(s1, t, 1, [true, true]) == Tick(s2, t, 2, [true, true]) == s2;
  }

  /** And that look is what it takes: whenever an announce is taken on without
      room, and both answers then fall due and go out while the charges still
      count, thirteen answers have left within the hour. */
  lemma NoRoomMeansThirteen(s: Rt, t: nat, c: Call, round: nat, delay: nat, t': nat)
    requires Metered(s, t, LOOSE) && Takes(s, c, t) && !Room(s, t) && t <= t' < WRAP
    requires Used(s.budget, t') == Used(s.budget, t)
    requires forall i :: 0 <= i < PENDING_MAX ==> Due(Announce(s, c, round, t, delay).pending[i], t')
    ensures var a := Tick(Announce(s, c, round, t, delay), t', 0, [true, true]).answers;
      |a| >= 13 && a[|a| - 1].at - a[|a| - 13].at < WINDOW_MS
  {
    hide Used, Recent, Due;
    var s1 := Announce(s, c, round, t, delay);
    BothSent(s1, t');
    DueUsed(s1.pending[1], t');
    assert Recent(s.answers, t') == 11;
    RecentAreLast(s.answers, t');
  }

  /** What counts as recent is the end of the log. */
  lemma {:induction false} RecentAreLast(a: seq<Answer>, now: nat)
    requires forall i, j :: 0 <= i < j < |a| ==> a[i].at <= a[j].at
    ensures var r := Recent(a, now); forall k :: |a| - r <= k < |a| ==> now - a[k].at < WINDOW_MS
  {
    if a != [] {
      var b := a[..|a| - 1];
      RecentAreLast(b, now);
      if now - a[|a| - 1].at >= WINDOW_MS { NoneRecent(b, now); }
      forall k | |a| - Recent(a, now) <= k < |a| ensures now - a[k].at < WINDOW_MS {
        if k < |b| { assert a[k] == b[k]; }
      }
    }
  }

  // ------------------------------------------------------ the answer's delay

  const BASE_MS: nat := 400
  const SLOT_MS: nat := 600
  const JITTER_MS: nat := 500

  /** rollcall_response_delay_ms. */
  function ResponseDelay(addr: nat, id: nat, peers: nat, random: nat): (r: nat)
    ensures BASE_MS <= r < 20_000
  {
    var wanted := peers * 2;
    var buckets := if wanted < 4 then 4 else if wanted > 32 then 32 else wanted;
    BASE_MS + (Xor(addr, id) % buckets) * SLOT_MS + random % JITTER_MS
  }

  // -------------------------------------------------- thirteen are reached

  /** The k-th of a series of announces, each from another node, 20 s apart. */
  function Hear(id: nat, k: nat, delay: nat -> nat): Event { Heard(Call(id, id), 1, delay(id), 20_000 * k) }

  function Answer1(k: nat): Event { Ticked([true, true], 20_000 * k + 20_000) }

  function Answering(n: nat, delay: nat -> nat): seq<Event> {
    if n == 0 then [] else Answering(n - 1, delay) + [Hear(n, n - 1, delay)] + [Answer1(n - 1)]
  }

  /** Delays such as ResponseDelay gives. */
  ghost predicate Delays(delay: nat -> nat) { forall id :: BASE_MS <= delay(id) < 20_000 }

  /** n answers in the first n intervals, nothing waiting, calls 1 to n claimed at most. */
  ghost predicate Scene(s: Rt, n: nat) {
    && Metered(s, 20_000 * n, LOOSE) && PendingCount(s.pending) == 0 && |s.answers| == n
    && (forall i :: 0 <= i < |s.seen| && s.seen[i].used ==> s.seen[i].call.id <= n)
  }

  lemma SceneUsed(s: Rt, t: nat)
    requires Metered(s, t, LOOSE) && |s.answers| < ANSWERS_MAX
    ensures Used(s.budget, t) < ANSWERS_MAX
  {
    assert Recent(s.answers, t) <= |s.answers|;
  }

  /** An announce nobody has made before goes to the first free slot. */
  lemma HeardNew(s: Rt, id: nat, k: nat, delay: nat -> nat)
    requires Metered(s, 20_000 * k, LOOSE) && |s.answers| < ANSWERS_MAX && 0 < id && k < 20 && Delays(delay) && !s.pending[1].used
    requires forall i :: 0 <= i < |s.seen| && s.seen[i].used ==> s.seen[i].call.id < id
    ensures var s', p := Do(s, Hear(id, k, delay)), Pending(true, Call(id, id), 1, 20_000 * k + delay(id));
      && Metered(s', 20_000 * k, LOOSE) && s'.answers == s.answers
      && s'.pending == (if s.pending[0].used then [s.pending[0], p] else [p, s.pending[1]])
      && s'.seen == s.seen[ClaimSlot(s.seen, 20_000 * k) := Claim(true, Call(id, id), 20_000 * k)]
      && (forall i :: 0 <= i < |s'.seen| && s'.seen[i].used ==> s'.seen[i].call.id <= id)
  {
    hide Used, Metered, Announce;
    MeteredShape(s, 20_000 * k, LOOSE);
    SceneUsed(s, 20_000 * k);
    AnnounceMetered(s, 20_000 * k, Call(id, id), 1, delay(id), LOOSE);
    Placed(s, id, 20_000 * k, delay(id));
  }

  lemma Placed(s: Rt, id: nat, t: nat, delay: nat)
    requires Shape(s) && Used(s.budget, t) < ANSWERS_MAX && 0 < id && t + delay < WRAP && !s.pending[1].used
    requires forall i :: 0 <= i < |s.seen| && s.seen[i].used ==> s.seen[i].call.id < id
    ensures var s', p := Announce(s, Call(id, id), 1, t, delay), Pending(true, Call(id, id), 1, t + delay);
      && s'.answers == s.answers
      && s'.pending == (if s.pending[0].used then [s.pending[0], p] else [p, s.pending[1]])
      && s'.seen == s.seen[ClaimSlot(s.seen, t) := Claim(true, Call(id, id), t)]
      && (forall i :: 0 <= i < |s'.seen| && s'.seen[i].used ==> s'.seen[i].call.id <= id)
  {
    hide Used;
    assert FreePending(s.pending, 0) == if s.pending[0].used then 1 else 0;
    assert (t + delay) % WRAP == t + delay;
  }

  predicate Soon(p: Pending, k: nat) { p.used && 20_000 * k <= p.due < 20_000 * k + 20_000 }

  /** At the end of the interval whatever waits has been answered. */
  lemma Answered1(s: Rt, k: nat)
    requires Metered(s, 20_000 * k, LOOSE) && k < 20 && Soon(s.pending[0], k) && (s.pending[1].used ==> Soon(s.pending[1], k))
    ensures var s', t := Do(s, Answer1(k)), 20_000 * k + 20_000;
      && Metered(s', t, LOOSE) && PendingCount(s'.pending) == 0 && s'.seen == s.seen
      && s'.answers == s.answers + [Answer(s.pending[0].call, t)] + (if s.pending[1].used then [Answer(s.pending[1].call, t)] else [])
  {
    hide Metered;
    MeteredShape(s, 20_000 * k, LOOSE);
    MeteredLater(s, 20_000 * k, 20_000 * k + 20_000, LOOSE);
    TickMetered(s, 20_000 * k + 20_000, 0, [true, true], LOOSE);
    BothSent(s, 20_000 * k + 20_000);
  }

  lemma RunSnoc(s: Rt, es: seq<Event>, e: Event)
    requires Shape(s)
    ensures Run(s, es + [e]) == Do(Run(s, es), e)
  {
    assert (es + [e])[..|es|] == es;
  }

  lemma SceneStep(s: Rt, n: nat, delay: nat -> nat)
    requires Scene(s, n) && n < ANSWERS_MAX && Delays(delay) && Shape(s)
    ensures Scene(Do(Do(s, Hear(n + 1, n, delay)), Answer1(n)), n + 1)
  {
    hide Metered, Do;
    HeardNew(s, n + 1, n, delay);
    Answered1(Do(s, Hear(n + 1, n, delay)), n);
  }

  lemma SceneStart(claims: nat)
    requires 0 < claims
    ensures Scene(Start(claims), 0)
  {
    StartMetered(claims, LOOSE);
  }

  lemma {:induction false} SceneReached(claims: nat, n: nat, delay: nat -> nat)
    requires 0 < claims && n <= ANSWERS_MAX && Delays(delay)
    ensures Scene(Run(Start(claims), Answering(n, delay)), n)
  {
    hide Scene, Do, Run, Delays;
    if n == 0 {
      SceneStart(claims);
      RunNone(Start(claims));
    } else {
      SceneReached(claims, n - 1, delay);
      var es := Answering(n - 1, delay);
      RunSnoc(Start(claims), es, Hear(n, n - 1, delay));
      RunSnoc(Start(claims), es + [Hear(n, n - 1, delay)], Answer1(n - 1));
      SceneStep(Run(Start(claims), es), n - 1, delay);
    }
  }

  lemma RunNone(s: Rt)
    requires Shape(s)
    ensures Run(s, []) == s
  {
  }

  /** Thirteen announces in four minutes, the last two in one interval. */
  function Thirteen(delay: nat -> nat): seq<Event> {
    Answering(11, delay) + [Hear(12, 11, delay)] + [Hear(13, 11, delay)] + [Answer1(11)]
  }

  /** The cap is twelve an hour; thirteen answers leave within four minutes,
      because two announces are admitted against the same last place. */
  lemma ThirteenInAnHour(claims: nat, delay: nat -> nat)
    requires 0 < claims && Delays(delay)
    ensures var a := Run(Start(claims), Thirteen(delay)).answers;
      |a| == 13 && a[12].at - a[0].at < WINDOW_MS
  {
    hide Do, Run;
    var s0, es := Start(claims), Answering(11, delay);
    SceneReached(claims, 11, delay);
    RunSnoc(s0, es, Hear(12, 11, delay));
    RunSnoc(s0, es + [Hear(12, 11, delay)], Hear(13, 11, delay));
    RunSnoc(s0, es + [Hear(12, 11, delay)] + [Hear(13, 11, delay)], Answer1(11));
    var s := Run(s0, es);
    hide Metered;
    HeardNew(s, 12, 11, delay);
    var s1 := Do(s, Hear(12, 11, delay));
    HeardNew(s1, 13, 11, delay);
    var s2 := Do(s1, Hear(13, 11, delay));
    Answered1(s2, 11);
  }

  // ---------------------------------------------------- answered twice

  const CLAIMS: nat := 8

  /** Two announces, each from another node, in each interval. */
  function Pairs(k: nat, delay: nat -> nat): seq<Event> {
    if k == 0 then []
    else Pairs(k - 1, delay) + [Hear(2 * k - 1, k - 1, delay)] + [Hear(2 * k, k - 1, delay)] + [Answer1(k - 1)]
  }

  /** Calls 1 to n claimed in order, two in each interval. */
  predicate ClaimedInOrder(t: seq<Claim>, n: nat) {
    && |t| == CLAIMS
    && (forall i :: 0 <= i < CLAIMS ==> t[i].used == (i < n))
    && (forall i :: 0 <= i < n && i < CLAIMS ==> t[i].call == Call(i + 1, i + 1) && t[i].at == 20_000 * (i / 2))
  }

  lemma NextClaim(t: seq<Claim>, n: nat, now: nat)
    requires ClaimedInOrder(t, n) && n < CLAIMS && now == 20_000 * (n / 2)
    ensures ClaimedInOrder(t[ClaimSlot(t, now) := Claim(true, Call(n + 1, n + 1), now)], n + 1)
  {
    assert !t[n].used;
    assert FreeClaim(t, 0) == n;
  }

  /** After k intervals two calls for each are claimed and answered, the second of all being call 2. */
  ghost predicate PairScene(s: Rt, k: nat) {
    && Metered(s, 20_000 * k, LOOSE) && PendingCount(s.pending) == 0 && |s.answers| == 2 * k
    && ClaimedInOrder(s.seen, 2 * k) && (k > 0 ==> s.answers[1].call == Call(2, 2))
  }

  lemma PairStep(s: Rt, k: nat, delay: nat -> nat)
    requires PairScene(s, k) && k < 4 && Delays(delay) && Shape(s)
    ensures PairScene(Do(Do(Do(s, Hear(2 * k + 1, k, delay)), Hear(2 * k + 2, k, delay)), Answer1(k)), k + 1)
  {
    hide Metered, Do, Delays, ClaimSlot;
    var s1 := Do(s, Hear(2 * k + 1, k, delay));
    HeardNew(s, 2 * k + 1, k, delay);
    NextClaim(s.seen, 2 * k, 20_000 * k);
    var s2 := Do(s1, Hear(2 * k + 2, k, delay));
    HeardNew(s1, 2 * k + 2, k, delay);
    NextClaim(s1.seen, 2 * k + 1, 20_000 * k);
    DelayIs(delay, 2 * k + 1);
    DelayIs(delay, 2 * k + 2);
    Answered1(s2, k);
  }

  lemma DelayIs(delay: nat -> nat, id: nat)
    requires Delays(delay)
    ensures BASE_MS <= delay(id) < 20_000
  {
  }

  lemma {:induction false} PairsReached(k: nat, delay: nat -> nat)
    requires k <= 4 && Delays(delay)
    ensures PairScene(Run(Start(CLAIMS), Pairs(k, delay)), k)
  {
    hide PairScene, Do, Run, Delays;
    var s0 := Start(CLAIMS);
    if k == 0 {
      PairStart();
      RunNone(s0);
    } else {
      PairsReached(k - 1, delay);
      var es := Pairs(k - 1, delay);
      RunSnoc(s0, es, Hear(2 * k - 1, k - 1, delay));
      RunSnoc(s0, es + [Hear(2 * k - 1, k - 1, delay)], Hear(2 * k, k - 1, delay));
      RunSnoc(s0, es + [Hear(2 * k - 1, k - 1, delay)] + [Hear(2 * k, k - 1, delay)], Answer1(k - 1));
      PairStep(Run(s0, es), k - 1, delay);
    }
  }

  lemma PairStart()
    ensures PairScene(Start(CLAIMS), 0)
  {
    StartMetered(CLAIMS, LOOSE);
  }

  /** The oldest claim is the last of the oldest. */
  lemma {:induction false} LastOldest(t: seq<Claim>, now: nat, n: nat, k: nat)
    requires k < n <= |t|
    requires forall i :: 0 <= i < k ==> Age(now, t[i].at) <= Age(now, t[k].at)
    requires forall i :: k < i < n ==> Age(now, t[i].at) < Age(now, t[k].at)
    ensures OldestClaim(t, now, n) == k
  {
    if n > k + 1 {
      LastOldest(t, now, n - 1, k);
    } else if k > 0 {
      OldestBelow(t, now, k);
    }
  }

  lemma {:induction false} OldestBelow(t: seq<Claim>, now: nat, n: nat)
    requires 0 < n <= |t|
    ensures OldestClaim(t, now, n) < n
  {
    if n > 1 { OldestBelow(t, now, n - 1); }
  }

  /** With all eight claims held, the ninth call takes the place of the second. */
  lemma SecondDropped(t: seq<Claim>)
    requires ClaimedInOrder(t, CLAIMS)
    ensures ClaimSlot(t, 80_000) == 1
    ensures !Claimed(t[1 := Claim(true, Call(9, 9), 80_000)], Call(2, 2))
  {
    assert FreeClaim(t, 0) == CLAIMS;
    forall i | 0 <= i < CLAIMS ensures Age(80_000, t[i].at) == 80_000 - 20_000 * (i / 2) {}
    LastOldest(t, 80_000, CLAIMS, 1);
  }

  /** Eight calls in eighty seconds, a ninth, and the third announce of the
      second, ninety seconds after its first. */
  function Again(delay: nat -> nat): seq<Event> {
    Pairs(4, delay) + [Hear(9, 4, delay)] + [Heard(Call(2, 2), 3, delay(2), 90_000)] + [Ticked([true, true], 110_000)]
  }

  lemma HeardAgain(s: Rt, delay: nat)
    requires Metered(s, 80_000, LOOSE) && |s.answers| == 8 && BASE_MS <= delay < 20_000
    requires s.pending[0].used && !s.pending[1].used && !Claimed(s.seen, Call(2, 2))
    ensures var s' := Do(s, Heard(Call(2, 2), 3, delay, 90_000));
      s'.answers == s.answers && s'.pending == [s.pending[0], Pending(true, Call(2, 2), 3, 90_000 + delay)]
  {
    hide Used;
    MeteredLater(s, 80_000, 90_000, LOOSE);
    SceneUsed(s, 90_000);
    assert FreePending(s.pending, 0) == 1;
    assert (90_000 + delay) % WRAP == 90_000 + delay;
  }

  /** The claim table is what makes an announce free for a member that has
      answered. It holds eight: with nine calls about, the second is answered
      twice. */
  lemma AnsweredTwice(delay: nat -> nat)
    requires Delays(delay)
    ensures var a := Run(Start(CLAIMS), Again(delay)).answers;
      |a| == 10 && a[1].call == Call(2, 2) && a[9].call == Call(2, 2)
  {
    hide Do, Run, Delays, ClaimSlot, Metered;
    var s0, es := Start(CLAIMS), Pairs(4, delay);
    PairsReached(4, delay);
    RunSnoc(s0, es, Hear(9, 4, delay));
    RunSnoc(s0, es + [Hear(9, 4, delay)], Heard(Call(2, 2), 3, delay(2), 90_000));
    RunSnoc(s0, es + [Hear(9, 4, delay)] + [Heard(Call(2, 2), 3, delay(2), 90_000)], Ticked([true, true], 110_000));
    var s := Run(s0, es);
    DelayIs(delay, 9);
    DelayIs(delay, 2);
    HeardNew(s, 9, 4, delay);
    SecondDropped(s.seen);
    var s1 := Do(s, Hear(9, 4, delay));
    HeardAgain(s1, delay(2));
    BothAnswered(Do(s1, Heard(Call(2, 2), 3, delay(2), 90_000)));
  }

  lemma BothAnswered(s: Rt)
    requires Shape(s) && s.pending[0].used && s.pending[1].used && s.pending[0].due <= 110_000 && s.pending[1].due <= 110_000
    ensures Do(s, Ticked([true, true], 110_000)).answers
      == s.answers + [Answer(s.pending[0].call, 110_000)] + [Answer(s.pending[1].call, 110_000)]
  {
    BothSent(s, 110_000);
  }

  // ------------------------------------------------------------ in place

  /** The runtime block. */
  class Runtime {
    const seen: array<Claim>
    const pending: array<Pending>
    const budget: array<Charge>
    ghost var answers: seq<Answer>

    ghost predicate Valid()
      reads this
    {
      0 < seen.Length && pending.Length == PENDING_MAX && budget.Length == ANSWERS_MAX
    }

    ghost function Abs(): (s: Rt)
      reads this, seen, pending, budget
      requires Valid()
      ensures Shape(s)
    {
      Rt(seen[..], pending[..], budget[..], answers)
    }

    constructor (claims: nat)
      requires 0 < claims
      ensures Valid() && Abs() == Start(claims) && fresh(seen) && fresh(pending) && fresh(budget)
    {
      seen := new Claim[claims](i => Claim(false, Call(0, 0), 0));
      pending := new Pending[PENDING_MAX](i => NoPending());
      budget := new Charge[ANSWERS_MAX](i => Charge(false, 0));
      answers := [];
    }

    method Find(c: Call) returns (i: nat)
      requires Valid()
      ensures i == FindClaim(seen[..], c, 0)
    {
      i := 0;
      while i < seen.Length && !(seen[i].used && seen[i].call == c)
        invariant i <= seen.Length && FindClaim(seen[..], c, 0) == FindClaim(seen[..], c, i)
      {
        i := i + 1;
      }
    }

    method SlotForClaim(now: nat) returns (k: nat)
      requires Valid()
      ensures k == ClaimSlot(seen[..], now)
    {
      k := 0;
      while k < seen.Length && seen[k].used
        invariant k <= seen.Length && FreeClaim(seen[..], 0) == FreeClaim(seen[..], k)
      {
        k := k + 1;
      }
      if k == seen.Length {
        var oldestAge := 0;
        k := 0;
        for i := 0 to seen.Length
          invariant k == OldestClaim(seen[..], now, i)
          invariant oldestAge == if i == 0 then 0 else Age(now, seen[k].at)
        {
          var age := Age(now, seen[i].at);
          if age >= oldestAge {
            oldestAge, k := age, i;
          }
        }
      }
    }

    method CountUsed(now: nat) returns (n: nat)
      requires Valid()
      ensures n == Used(budget[..], now)
    {
      n := 0;
      for i := 0 to ANSWERS_MAX
        invariant n == Used(budget[..i], now)
      {
        assert budget[..i + 1][..i] == budget[..i];
        if budget[i].used && Age(now, budget[i].at) < WINDOW_MS {
          n := n + 1;
        }
      }
      assert budget[..ANSWERS_MAX] == budget[..];
    }

    /** mesh_rollcall_handle_announce. */
    method HandleAnnounce(c: Call, round: nat, now: nat, delay: nat) returns (taken: bool)
      requires Valid()
      modifies this, seen, pending
      ensures taken == Takes(old(Abs()), c, now)
      ensures Abs() == Announce(old(Abs()), c, round, now, delay)
    {
      hide Used, ClaimSlot;
      var at := Find(c);
      if at < seen.Length {
        return false;
      }
      var slot := 0;
      while slot < PENDING_MAX && pending[slot].used
        invariant slot <= PENDING_MAX && FreePending(pending[..], 0) == FreePending(pending[..], slot)
      {
        slot := slot + 1;
      }
      var n := CountUsed(now);
      if slot == PENDING_MAX || n >= ANSWERS_MAX || c.id == 0 {
        return false;
      }
      var k := SlotForClaim(now);
      seen[k] := Claim(true, c, now);
      pending[slot] := Pending(true, c, round, (now + delay) % WRAP);
      taken := true;
    }

    /** rollcall_answer_budget_note. */
    method Charged(now: nat)
      requires Valid()
      modifies budget
      ensures budget[..] == Note(old(budget[..]), now)
    {
      ghost var b := budget[..];
      var i, oldest, oldestAge := 0, 0, 0;
      while i < ANSWERS_MAX && budget[i].used && Age(now, budget[i].at) < WINDOW_MS
        invariant i <= ANSWERS_MAX && Expired(b, now, 0) == Expired(b, now, i)
        invariant oldest == OldestCharge(b, now, i)
        invariant oldestAge == if i == 0 then 0 else Age(now, b[oldest].at)
      {
        var age := Age(now, budget[i].at);
        if age >= oldestAge {
          oldestAge, oldest := age, i;
        }
        i := i + 1;
      }
      budget[if i < ANSWERS_MAX then i else oldest] := Charge(true, now);
    }

    /** rollcall_send_pending and rollcall_abandon_pending. */
    method Send(i: nat, ok: bool, now: nat)
      requires Valid() && i < PENDING_MAX
      modifies this`answers, seen, pending, budget
      ensures Abs() == SendPending(old(Abs()), i, ok, now)
    {
      hide Note;
      var c := pending[i].call;
      if ok {
        Charged(now);
        answers := answers + [Answer(c, now)];
      } else {
        var k := Find(c);
        if k < seen.Length {
          seen[k] := Claim(false, Call(0, 0), 0);
        }
      }
      pending[i] := NoPending();
    }

    /** The member part of mesh_rollcall_tick. */
    method TickMember(t: nat, oks: seq<bool>)
      requires Valid()
      modifies this`answers, seen, pending, budget
      ensures Abs() == Tick(old(Abs()), t, 0, oks)
    {
      hide SendPending;
      for i := 0 to PENDING_MAX
        invariant Tick(Abs(), t, i, oks) == Tick(old(Abs()), t, 0, oks)
      {
        if pending[i].used && (t - pending[i].due) % WRAP < HALF {
          Send(i, i < |oks| && oks[i], t);
        }
      }
    }
  }
}
