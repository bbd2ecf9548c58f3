/**
 * The pure part of the scroll-to-stage calculator of `TriangleFramework`:
 * the section geometry, the 0..1 scroll progress, the threshold table that
 * turns progress into an animation stage, the five visibility flags derived
 * from a stage, and what one evaluation makes of the retained stage.
 *
 * Browser numbers are modelled as `real`; the window height is positive.
 */
module ScrollStage {
  import opened Wrappers

  /** The section's bounding box, relative to the top of the viewport. */
  datatype Rect = Rect(top: real, bottom: real)

  function Abs(x: real): (r: real)
    ensures r >= 0.0 && (r == x || r == -x)
  {
    if x < 0.0 then -x else x
  }

  function Min(a: real, b: real): (m: real) { if a <= b then a else b }
  function Max(a: real, b: real): (m: real) { if a >= b then a else b }

  /** The section is entirely above or entirely below the window. */
  predicate OffScreen(r: Rect, windowHeight: real) {
    r.bottom < 0.0 || r.top > windowHeight
  }

  function WindowCenter(windowHeight: real): (c: real) { windowHeight * 0.5 }

  function SectionCenter(r: Rect): (c: real) { (r.top + r.bottom) / 2.0 }

  /** Distance between the section's centre and the window's centre. */
  function CenterDistance(r: Rect, windowHeight: real): (d: real)
    ensures d >= 0.0
    ensures d == 0.0 <==> SectionCenter(r) == WindowCenter(windowHeight)
  {
    Abs(SectionCenter(r) - WindowCenter(windowHeight))
  }

  /** The distance at which progress has fallen to zero. */
  function MaxDistance(windowHeight: real): (d: real) { windowHeight * 0.8 }

  /** `Math.max(0, Math.min(1, x))`: the nearest point of [0, 1]. */
  function Clamp01(x: real): (r: real)
    ensures 0.0 <= r <= 1.0
    ensures 0.0 <= x <= 1.0 ==> r == x
    ensures x < 0.0 ==> r == 0.0
    ensures x > 1.0 ==> r == 1.0
  {
    Max(0.0, Min(1.0, x))
  }

  /** Clamping never moves two points out of order. */
  lemma Clamp01Monotone(x: real, y: real)
    requires x <= y
    ensures Clamp01(x) <= Clamp01(y)
  {
  }

  lemma DivMonotone(a: real, b: real, m: real)
    requires m > 0.0 && a <= b
    ensures a / m <= b / m
  {
  }

  lemma DivAtLeastOne(a: real, m: real)
    requires m > 0.0
    ensures a / m >= 1.0 <==> a >= m
  {
  }

  /**
   * The scroll progress: 1 when the section is centred in the window,
   * falling linearly to 0 as the centres move `0.8 * windowHeight` apart.
   */
  function Progress(r: Rect, windowHeight: real): (p: real)
    requires windowHeight > 0.0
    ensures 0.0 <= p <= 1.0
    ensures p == 1.0 <==> SectionCenter(r) == WindowCenter(windowHeight)
    ensures p == 0.0 <==> CenterDistance(r, windowHeight) >= MaxDistance(windowHeight)
  {
    var d := CenterDistance(r, windowHeight);
    var m := MaxDistance(windowHeight);
    assert d / m * m == d;
    DivAtLeastOne(d, m);
    Clamp01(1.0 - d / m)
  }

  /** The nearer the section's centre is to the window's centre, the larger the progress. */
  lemma ProgressAntitone(a: Rect, b: Rect, windowHeight: real)
    requires windowHeight > 0.0
    requires CenterDistance(a, windowHeight) <= CenterDistance(b, windowHeight)
    ensures Progress(b, windowHeight) <= Progress(a, windowHeight)
  {
    var m := MaxDistance(windowHeight);
    DivMonotone(CenterDistance(a, windowHeight), CenterDistance(b, windowHeight), m);
    Clamp01Monotone(1.0 - CenterDistance(b, windowHeight) / m, 1.0 - CenterDistance(a, windowHeight) / m);
  }

  // ---------------------------------------------------------------------
  // The threshold table

  /** The progress at which each stage 1..5 is reached, in increasing order. */
  const Thresholds: seq<real> := [0.0, 0.05, 0.10, 0.20, 0.30]

  /** The highest stage. */
  const MaxStage: nat := 5

  predicate Increasing(ts: seq<real>) {
    forall i, j :: 0 <= i < j < |ts| ==> ts[i] <= ts[j]
  }

  /** How many of the thresholds `ts` the progress `p` has reached. */
  function Reached(ts: seq<real>, p: real): (n: nat)
    ensures n <= |ts|
  {
    if ts == [] then 0
    else (if p >= ts[0] then 1 else 0) + Reached(ts[1..], p)
  }

  /**
   * Against increasing thresholds, the reached ones are exactly the first
   * `Reached(ts, p)`: the last threshold reached decides the count.
   */
  lemma {:induction false} ReachedIsPrefix(ts: seq<real>, p: real)
    requires Increasing(ts)
    ensures forall i :: 0 <= i < |ts| ==> (p >= ts[i] <==> i < Reached(ts, p))
  {
    if ts != [] {
      var tail := ts[1..];
      assert Increasing(tail) by {
        forall i, j | 0 <= i < j < |tail| ensures tail[i] <= tail[j] {
          assert tail[i] == ts[i + 1] && tail[j] == ts[j + 1];
        }
      }
      ReachedIsPrefix(tail, p);
      forall i | 0 <= i < |ts| ensures p >= ts[i] <==> i < Reached(ts, p) {
        if i > 0 {
          assert ts[i] == tail[i - 1];
          if p < ts[0] {
            assert ts[0] <= ts[i];
          }
        }
      }
    }
  }

  /** Reaching more progress never reaches fewer thresholds. */
  lemma {:induction false} ReachedMonotone(ts: seq<real>, p: real, q: real)
    requires p <= q
    ensures Reached(ts, p) <= Reached(ts, q)
  {
    if ts != [] {
      ReachedMonotone(ts[1..], p, q);
    }
  }

  /**
   * The stage a progress value maps to. The component assigns stage `k` for
   * every threshold `k` that is reached, in increasing order, so the last
   * assignment wins: the stage is the number of thresholds reached.
   */
  function StageOf(p: real): (s: nat)
    ensures s <= MaxStage
    ensures s == 0 <==> p < 0.0
  {
    ReachedIsPrefix(Thresholds, p);
    Reached(Thresholds, p)
  }

  /** The threshold table in both directions, band by band. */
  lemma StageTable(p: real)
    ensures StageOf(p) == 0 <==> p < 0.0
    ensures StageOf(p) == 1 <==> 0.0 <= p < 0.05
    ensures StageOf(p) == 2 <==> 0.05 <= p < 0.10
    ensures StageOf(p) == 3 <==> 0.10 <= p < 0.20
    ensures StageOf(p) == 4 <==> 0.20 <= p < 0.30
    ensures StageOf(p) == 5 <==> 0.30 <= p
  {
    ReachedIsPrefix(Thresholds, p);
    var s := StageOf(p);
    assert p >= Thresholds[0] <==> 0 < s;
    assert p >= Thresholds[1] <==> 1 < s;
    assert p >= Thresholds[2] <==> 2 < s;
    assert p >= Thresholds[3] <==> 3 < s;
    assert p >= Thresholds[4] <==> 4 < s;
  }

  /** More progress never means an earlier stage. */
  lemma StageMonotone(p: real, q: real)
    requires p <= q
    ensures StageOf(p) <= StageOf(q)
  {
    ReachedMonotone(Thresholds, p, q);
  }

  /** Every progress the calculator can produce is stage 1 or later. */
  lemma ProgressedStage(r: Rect, windowHeight: real)
    requires windowHeight > 0.0
    ensures 1 <= StageOf(Progress(r, windowHeight)) <= MaxStage
  {
  }

  /** The nearer the section is to the window's centre, the later the stage. */
  lemma StageAntitoneInDistance(a: Rect, b: Rect, windowHeight: real)
    requires windowHeight > 0.0
    requires CenterDistance(a, windowHeight) <= CenterDistance(b, windowHeight)
    ensures StageOf(Progress(b, windowHeight)) <= StageOf(Progress(a, windowHeight))
  {
    ProgressAntitone(a, b, windowHeight);
    StageMonotone(Progress(b, windowHeight), Progress(a, windowHeight));
  }

  /**
   * The successive reassignment the component performs: start at 0 and let
   * each reached threshold, in increasing order, overwrite the stage.
   */
  method ComputeStage(p: real) returns (newStage: nat)
    ensures newStage == StageOf(p)
  {
    newStage := 0;
    if p >= 0.0 { newStage := 1; }
    if p >= 0.05 { newStage := 2; }
    if p >= 0.10 { newStage := 3; }
    if p >= 0.20 { newStage := 4; }
    if p >= 0.30 { newStage := 5; }
    StageTable(p);
  }

  // ---------------------------------------------------------------------
  // Visibility flags

  /**
   * The five visibility flags `stage >= k`, k = 1..5: top-left, top-right,
   * bottom, lines and centre, in that order.
   */
  function Flags(stage: int): (f: seq<bool>)
    ensures |f| == MaxStage
    ensures forall i, j :: 0 <= i < j < |f| && f[j] ==> f[i]
  {
    seq(MaxStage, k => stage >= k + 1)
  }

  function CountTrue(f: seq<bool>): (n: nat)
    ensures n <= |f|
  {
    if f == [] then 0 else (if f[0] then 1 else 0) + CountTrue(f[1..])
  }

  /** A run of `k` true flags followed only by false ones has `k` true flags. */
  lemma {:induction false} CountTruePrefix(f: seq<bool>, k: nat)
    requires k <= |f|
    requires forall i :: 0 <= i < |f| ==> (f[i] <==> i < k)
    ensures CountTrue(f) == k
  {
    if f != [] {
      var tail := f[1..];
      var k' := if k == 0 then 0 else k - 1;
      forall i | 0 <= i < |tail| ensures tail[i] <==> i < k' {
        assert tail[i] == f[i + 1];
      }
      CountTruePrefix(tail, k');
    }
  }

  /** For a stage in 0..5, the number of visible elements is the stage. */
  lemma FlagsCountStage(stage: int)
    requires 0 <= stage <= MaxStage
    ensures CountTrue(Flags(stage)) == stage
  {
    CountTruePrefix(Flags(stage), stage);
  }

  /** Stages in 0..5 are told apart by their flags. */
  lemma FlagsInjective(s: int, t: int)
    requires 0 <= s <= MaxStage && 0 <= t <= MaxStage
    requires Flags(s) == Flags(t)
    ensures s == t
  {
    FlagsCountStage(s);
    FlagsCountStage(t);
  }

  // ---------------------------------------------------------------------
  // One evaluation

  /**
   * What one evaluation observes: nothing when the section element is
   * absent or the section is off-screen, otherwise the stage for the
   * current progress.
   */
  function Observed(section: Option<Rect>, windowHeight: real): (o: Option<nat>)
    requires windowHeight > 0.0
    ensures o.None? <==> section.None? || OffScreen(section.value, windowHeight)
    ensures o.Some? ==> 1 <= o.value <= MaxStage
    ensures o.Some? ==> o.value == StageOf(Progress(section.value, windowHeight))
  {
    match section
    case None => None
    case Some(r) => if OffScreen(r, windowHeight) then None else Some(StageOf(Progress(r, windowHeight)))
  }

  /** The retained stage after one evaluation, starting from `last`. */
  function Settle(last: nat, section: Option<Rect>, windowHeight: real): (s: nat)
    requires windowHeight > 0.0
    ensures Observed(section, windowHeight).None? ==> s == last
    ensures Observed(section, windowHeight).Some? ==> 1 <= s <= MaxStage
  {
    match Observed(section, windowHeight)
    case None => last
    case Some(stage) => stage
  }

  /** Evaluating twice with the same geometry settles where once does. */
  lemma SettleIdempotent(last: nat, section: Option<Rect>, windowHeight: real)
    requires windowHeight > 0.0
    ensures Settle(Settle(last, section, windowHeight), section, windowHeight) == Settle(last, section, windowHeight)
  {
  }

  /** Evaluations keep the retained stage in 0..5, and once past 0 it never returns to 0. */
  lemma SettleInRange(last: nat, section: Option<Rect>, windowHeight: real)
    requires windowHeight > 0.0 && last <= MaxStage
    ensures Settle(last, section, windowHeight) <= MaxStage
    ensures last >= 1 ==> Settle(last, section, windowHeight) >= 1
  {
  }

  /** A section centred in a 1000-pixel window: progress 1, stage 5, every flag set. */
  lemma CenteredExample()
    ensures Progress(Rect(400.0, 600.0), 1000.0) == 1.0
    ensures StageOf(Progress(Rect(400.0, 600.0), 1000.0)) == 5
    ensures Flags(StageOf(Progress(Rect(400.0, 600.0), 1000.0))) == [true, true, true, true, true]
  {
  }

  /** Sample points on both sides of each threshold. */
  lemma StageExamples()
    ensures StageOf(0.0) == 1 && StageOf(0.049) == 1
    ensures StageOf(0.05) == 2 && StageOf(0.099) == 2
    ensures StageOf(0.10) == 3 && StageOf(0.19) == 3
    ensures StageOf(0.20) == 4 && StageOf(0.29) == 4
    ensures StageOf(0.30) == 5 && StageOf(1.0) == 5
  {
  }

  /** A section entirely below an 800-pixel window is not evaluated. */
  lemma BelowWindowExample(last: nat)
    ensures Observed(Some(Rect(900.0, 1000.0)), 800.0) == None
    ensures Settle(last, Some(Rect(900.0, 1000.0)), 800.0) == last
  {
  }
}
