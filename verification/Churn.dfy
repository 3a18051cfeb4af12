/**
 * Neighbor-count churn (main/beacon_policy_calc.c, main/mesh_beacon.c): samples
 * are written round a ring of sixteen and counted in array order, which after
 * the first wrap is a rotation of the order they came in.
 */
module Churn {
  import opened Basics

  const HISTORY: nat := 16

  /** churn_sample_t; time 0 is an empty slot. */
  datatype Sample = Sample(time: nat, count: nat)

  predicate InWindow(s: Sample, now: nat, window: nat) { s.time != 0 && (now - s.time) % WRAP <= window }

  /** The window is closed: a sample counts from its time to the window's length after it, and no longer. */
  lemma WindowEdge(s: Sample, age: nat, window: nat)
    requires s.time != 0 && s.time + age < WRAP
    ensures InWindow(s, s.time + age, window) <==> age <= window
  {
    assert (s.time + age - s.time) % WRAP == age;
  }

  /** The neighbor counts in the window, in order. */
  function Counts(s: seq<Sample>, now: nat, window: nat): seq<nat> {
    if s == [] then []
    else Counts(s[..|s| - 1], now, window) + (if InWindow(s[|s| - 1], now, window) then [s[|s| - 1].count] else [])
  }

  /** How often the value changes from one to the next. */
  function Changes(c: seq<nat>): nat {
    if |c| < 2 then 0 else Changes(c[..|c| - 1]) + (if c[|c| - 1] != c[|c| - 2] then 1 else 0)
  }

  /** beacon_churn_count. */
  method ChurnCount(hist: array<Sample>, now: nat, window: nat) returns (events: nat)
    ensures events == Changes(Counts(hist[..], now, window))
  {
    hide InWindow;
    events := 0;
    var last, first := 0, true;
    ghost var seen: seq<nat> := [];
    for i := 0 to hist.Length
      invariant seen == Counts(hist[..i], now, window)
      invariant events == Changes(seen)
      invariant first <==> seen == []
      invariant !first ==> last == seen[|seen| - 1]
    {
      assert hist[..i + 1][..i] == hist[..i];
      if InWindow(hist[i], now, window) {
        ghost var was := seen;
        seen := seen + [hist[i].count];
        assert seen[..|was|] == was;
        if first {
          last, first := hist[i].count, false;
        } else if hist[i].count != last {
          events := events + 1;
          last := hist[i].count;
        }
      }
    }
    assert hist[..hist.Length] == hist[..];
  }

  // ---------------------------------------------------------------- rotation

  lemma {:induction false} CountsConcat(a: seq<Sample>, b: seq<Sample>, now: nat, window: nat)
    ensures Counts(a + b, now, window) == Counts(a, now, window) + Counts(b, now, window)
    decreases |b|
  {
    hide InWindow;
    if b == [] {
      assert a + b == a;
    } else {
      assert (a + b)[..|a + b| - 1] == a + b[..|b| - 1];
      CountsConcat(a, b[..|b| - 1], now, window);
    }
  }

  /** Where two runs meet there is one more change or there is not. */
  function Seam(a: seq<nat>, b: seq<nat>): nat {
    if a != [] && b != [] && a[|a| - 1] != b[0] then 1 else 0
  }

  lemma {:induction false} ChangesConcat(a: seq<nat>, b: seq<nat>)
    ensures Changes(a + b) == Changes(a) + Changes(b) + Seam(a, b)
    decreases |b|
  {
    if b == [] {
      assert a + b == a;
    } else {
      assert (a + b)[..|a + b| - 1] == a + b[..|b| - 1];
      ChangesConcat(a, b[..|b| - 1]);
      if |b| == 1 { assert a + b[..0] == a; }
    }
  }

  /** The samples the ring still holds, oldest first. */
  function Retained(h: seq<Sample>): seq<Sample> { if |h| <= HISTORY then h else h[|h| - HISTORY..] }

  /** The ring as an array, when the next write goes to `idx`. */
  predicate Laid(a: seq<Sample>, h: seq<Sample>, idx: nat) {
    && |a| == HISTORY && idx < HISTORY && idx <= |h|
    && (idx == |h| || idx + HISTORY <= |h|)
    && (forall i :: 0 <= i < idx ==> a[i] == h[|h| - idx + i])
    && (forall i :: idx <= i < HISTORY ==> a[i] == if idx == |h| then Sample(0, 0) else h[|h| - idx - HISTORY + i])
  }

  lemma {:induction false} BlanksDontCount(s: seq<Sample>, now: nat, window: nat)
    requires forall i :: 0 <= i < |s| ==> s[i].time == 0
    ensures Counts(s, now, window) == []
  {
    if s != [] { BlanksDontCount(s[..|s| - 1], now, window); }
  }

  /** The retained samples not written since the last wrap. */
  function Older(h: seq<Sample>, idx: nat): seq<Sample>
    requires idx <= |h| && idx <= HISTORY
  {
    if idx + HISTORY <= |h| then h[|h| - HISTORY..|h| - idx] else []
  }

  /** The array is the newer part and then the older, the true order the reverse. */
  lemma Layout(a: seq<Sample>, h: seq<Sample>, idx: nat)
    requires Laid(a, h, idx)
    ensures a == h[|h| - idx..] + a[idx..]
    ensures Retained(h) == Older(h, idx) + h[|h| - idx..]
    ensures idx + HISTORY <= |h| ==> a[idx..] == Older(h, idx)
    ensures idx + HISTORY > |h| ==> forall i :: 0 <= i < |a[idx..]| ==> a[idx..][i].time == 0
  {
  }

  /** The array's count against the true order's: the part written since the
      last wrap comes first instead of last, so the two differ only in which
      ends meet. */
  lemma RotatedCount(a: seq<Sample>, h: seq<Sample>, idx: nat, now: nat, window: nat)
    requires Laid(a, h, idx)
    ensures var newer, older := Counts(h[|h| - idx..], now, window), Counts(Older(h, idx), now, window);
      && Changes(Counts(a, now, window)) + Seam(older, newer) == Changes(Counts(Retained(h), now, window)) + Seam(newer, older)
  {
    Layout(a, h, idx);
    hide Counts, Changes, Laid, Retained;
    var front, back := h[|h| - idx..], a[idx..];
    CountsConcat(front, back, now, window);
    CountsConcat(Older(h, idx), front, now, window);
    if idx + HISTORY > |h| {
      BlanksDontCount(back, now, window);
      BlanksDontCount([], now, window);
    }
    ChangesConcat(Counts(front, now, window), Counts(Older(h, idx), now, window));
    ChangesConcat(Counts(Older(h, idx), now, window), Counts(front, now, window));
  }

  /** Whatever was recorded and whenever it is asked, the count in array order
      is within one of the count in true order, and equal until the ring first wraps. */
  lemma NearlyRotationProof(a: seq<Sample>, h: seq<Sample>, idx: nat, now: nat, window: nat)
    requires Laid(a, h, idx)
    ensures var got, want := Changes(Counts(a, now, window)), Changes(Counts(Retained(h), now, window));
      && want - 1 <= got <= want + 1
      && (|h| <= HISTORY ==> got == want)
  {
    RotatedCount(a, h, idx, now, window);
    if |h| <= HISTORY { OnePart(a, h, idx); }
    BlanksDontCount([], now, window);
    hide Counts, Changes, Laid, Retained, Older;
  }

  /** Until the first wrap one of the two parts is empty. */
  lemma OnePart(a: seq<Sample>, h: seq<Sample>, idx: nat)
    requires Laid(a, h, idx) && |h| <= HISTORY
    ensures Older(h, idx) == [] || h[|h| - idx..] == []
  {
  }

  /** Exactly when the count is right: the ends that meet in the array differ
      just when the ends that met in time do. */
  lemma CountRightIff(a: seq<Sample>, h: seq<Sample>, idx: nat, now: nat, window: nat)
    requires Laid(a, h, idx)
    ensures var newer, older := Counts(h[|h| - idx..], now, window), Counts(Older(h, idx), now, window);
      Changes(Counts(a, now, window)) == Changes(Counts(Retained(h), now, window)) <==> Seam(older, newer) == Seam(newer, older)
  {
    hide Counts, Changes, Laid, Retained, Seam;
    RotatedCount(a, h, idx, now, window);
  }

  /** What the recorder's caller sees to: a sample is taken only when the count
      has changed. And a sample in the window is followed by none outside it. */
  predicate ChangeOnly(h: seq<Sample>) { forall i :: 0 < i < |h| ==> h[i].count != h[i - 1].count }

  predicate Suffix(h: seq<Sample>, now: nat, window: nat) {
    forall i, j :: 0 <= i < j < |h| && InWindow(h[i], now, window) ==> InWindow(h[j], now, window)
  }

  lemma {:induction false} CountsFirst(s: seq<Sample>, now: nat, window: nat)
    requires s != [] && InWindow(s[0], now, window)
    ensures Counts(s, now, window) != [] && Counts(s, now, window)[0] == s[0].count
  {
    hide InWindow;
    if |s| > 1 { CountsFirst(s[..|s| - 1], now, window); }
  }

  lemma {:induction false} CountsSome(s: seq<Sample>, now: nat, window: nat)
    requires Counts(s, now, window) != []
    ensures exists i :: 0 <= i < |s| && InWindow(s[i], now, window)
  {
    hide InWindow;
    if s != [] && !InWindow(s[|s| - 1], now, window) {
      CountsSome(s[..|s| - 1], now, window);
      var i :| 0 <= i < |s| - 1 && InWindow(s[..|s| - 1][i], now, window);
      assert InWindow(s[i], now, window);
    }
  }

  /** On such histories the count is never too high. It is one too low exactly
      when the window reaches back over the wrap and its oldest and newest
      counts are the same; otherwise it is right. */
  lemma UndercountIff(a: seq<Sample>, h: seq<Sample>, idx: nat, now: nat, window: nat)
    requires Laid(a, h, idx) && ChangeOnly(h) && Suffix(h, now, window)
    ensures var newer, older := Counts(h[|h| - idx..], now, window), Counts(Older(h, idx), now, window);
      Changes(Counts(a, now, window)) == Changes(Counts(Retained(h), now, window))
        - (if older != [] && newer != [] && newer[|newer| - 1] == older[0] then 1 else 0)
  {
    hide Counts, Changes, Laid, Retained, InWindow, ChangeOnly, Suffix;
    RotatedCount(a, h, idx, now, window);
    TimelySeam(a, h, idx, now, window);
  }

  /** In time neighboring samples differ, so the ends that met in time do. */
  lemma TimelySeam(a: seq<Sample>, h: seq<Sample>, idx: nat, now: nat, window: nat)
    requires Laid(a, h, idx) && ChangeOnly(h) && Suffix(h, now, window)
    ensures var newer, older := Counts(h[|h| - idx..], now, window), Counts(Older(h, idx), now, window);
      older != [] && newer != [] ==> Seam(older, newer) == 1
  {
    hide Counts, InWindow;
    var front, back := h[|h| - idx..], Older(h, idx);
    NoCounts(now, window);
    if Counts(back, now, window) != [] && Counts(front, now, window) != [] {
      CountsSome(back, now, window);
      var i :| 0 <= i < |back| && InWindow(back[i], now, window);
      assert h[|h| - HISTORY + i] == back[i];
      var last := |h| - idx - 1;
      assert InWindow(h[last], now, window) && back[|back| - 1] == h[last];
      assert InWindow(h[last + 1], now, window) && front[0] == h[last + 1];
      CountsFirst(front, now, window);
      CountsLast(back, now, window);
    }
  }

  lemma NoCounts(now: nat, window: nat)
    ensures Counts([], now, window) == []
  {
  }

  lemma CountsLast(s: seq<Sample>, now: nat, window: nat)
    requires s != [] && InWindow(s[|s| - 1], now, window)
    ensures var c := Counts(s, now, window); c != [] && c[|c| - 1] == s[|s| - 1].count
  {
  }

  /** Eighteen changes of the neighbor count, the last three at 90, 91 and 92. */
  function Eighteen(): seq<Sample> {
    seq(15, i requires 0 <= i => Sample(i + 1, i % 2)) + [Sample(90, 5), Sample(91, 6), Sample(92, 5)]
  }

  /** How the ring then lies. */
  function Lying(): seq<Sample> {
    [Sample(91, 6), Sample(92, 5)] + Eighteen()[2..15] + [Sample(90, 5)]
  }

  /** It does happen: two changes are counted as one. */
  lemma Miscount()
    ensures ChangeOnly(Eighteen()) && Laid(Lying(), Eighteen(), 2)
    ensures Changes(Counts(Lying(), 100, 50)) == 1 && Changes(Counts(Retained(Eighteen()), 100, 50)) == 2
  {
    var h := Eighteen();
    assert ChangeOnly(h) && Laid(Lying(), h, 2);
    Three(h[2..15]);
    assert Retained(h) == h[2..15] + ([Sample(90, 5)] + [Sample(91, 6), Sample(92, 5)]);
  }

  lemma {:induction false} Early(s: seq<Sample>)
    requires forall i :: 0 <= i < |s| ==> s[i].time < 50
    ensures Counts(s, 100, 50) == []
  {
    if s != [] { Early(s[..|s| - 1]); }
  }

  lemma Two()
    ensures Counts([Sample(91, 6), Sample(92, 5)], 100, 50) == [6, 5]
    ensures Counts([Sample(90, 5)], 100, 50) == [5]
  {
    assert [Sample(91, 6), Sample(92, 5)][..1] == [Sample(91, 6)];
    assert Counts([Sample(91, 6)], 100, 50) == [6];
  }

  lemma TwoChanges()
    ensures Changes([6, 5] + [5]) == 1 && Changes([5] + [6, 5]) == 2
  {
    assert [6, 5][..1] == [6];
    assert Changes([6, 5]) == 1;
    ChangesConcat([6, 5], [5]);
    ChangesConcat([5], [6, 5]);
  }

  lemma Three(blank: seq<Sample>)
    requires forall i :: 0 <= i < |blank| ==> blank[i].time < 50
    ensures var x, y := [Sample(90, 5)], [Sample(91, 6), Sample(92, 5)];
      Changes(Counts(y + blank + x, 100, 50)) == 1 && Changes(Counts(blank + (x + y), 100, 50)) == 2
  {
    hide Counts, Changes;
    Two();
    TwoChanges();
    Between(blank, [Sample(91, 6), Sample(92, 5)], [Sample(90, 5)]);
  }

  lemma Between(blank: seq<Sample>, y: seq<Sample>, x: seq<Sample>)
    requires forall i :: 0 <= i < |blank| ==> blank[i].time < 50
    ensures Counts(y + blank + x, 100, 50) == Counts(y, 100, 50) + Counts(x, 100, 50)
    ensures Counts(blank + (x + y), 100, 50) == Counts(x, 100, 50) + Counts(y, 100, 50)
  {
    hide Counts;
    Early(blank);
    CountsConcat(y + blank, x, 100, 50);
    CountsConcat(y, blank, 100, 50);
    CountsConcat(blank, x + y, 100, 50);
    CountsConcat(x, y, 100, 50);
  }

  /** s_churn_history and its index. */
  class Recorder {
    const hist: array<Sample>
    var idx: nat
    ghost var h: seq<Sample>

    ghost predicate Valid()
      reads this, hist
    {
      hist.Length == HISTORY && Laid(hist[..], h, idx)
    }

    constructor ()
      ensures Valid() && fresh(hist) && h == []
    {
      hist := new Sample[HISTORY](i => Sample(0, 0));
      idx, h := 0, [];
    }

    /** record_churn_event. */
    method Record(time: nat, count: nat)
      requires Valid()
      modifies this, hist
      ensures Valid() && h == old(h) + [Sample(time, count)]
    {
      hist[idx] := Sample(time, count);
      idx := if idx + 1 < HISTORY then idx + 1 else 0;
      h := h + [Sample(time, count)];
    }

    /** The count the beacon policy reads. */
    method Count(now: nat, window: nat) returns (events: nat)
      requires Valid()
      ensures var want := Changes(Counts(Retained(h), now, window));
        want - 1 <= events <= want + 1 && (|h| <= HISTORY ==> events == want)
    {
      events := ChurnCount(hist, now, window);
      NearlyRotationProof(hist[..], h, idx, now, window);
    }
  }
}
