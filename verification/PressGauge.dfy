/**
 The wall-press accumulator reduced to what it measures: the modelled depth into the guest, the pressure
 against the host-adjacent edge, and whether an AutoRelease is armed. Whole-run facts are proved here and
 carried to the capture wrapper by `WallPress`.
 */
module PressGauge {
  import opened Wrappers
  import M = CaptureModel

  datatype Gauge = Gauge(depth: real, pressure: real, armed: bool, threshold: nat)

  /** `Move`: a motion at the captured edge, scaled to the receiver; positive is into the guest. */
  datatype Push =
    | Move(delta: real, extent: Option<nat>)
    | Begin
    | Release
    | Fire
    | SetThreshold(px: nat)
    | Idle

  const INITIAL: Gauge := Gauge(0.0, 0.0, false, 0)

  function Step(g: Gauge, p: Push): Gauge {
    match p
    case Move(delta, extent) =>
      if g.threshold == 0 then g else
      var proposed := g.depth + delta;
      var pressure := if proposed < 0.0 then g.pressure - proposed else 0.0;
      Gauge(M.ClampTo(proposed, extent), pressure,
            pressure >= g.threshold as real || (proposed < 0.0 && g.armed), g.threshold)
    case Begin => g.(depth := 0.0, pressure := 0.0)
    case Release => g.(depth := 0.0, pressure := 0.0, armed := false)
    case Fire => g.(armed := false)
    case SetThreshold(px) => g.(threshold := px)
    case Idle => g
  }

  /** `gs[n]` is the gauge after the first `n` pushes of a run. */
  ghost predicate Run(ps: seq<Push>, gs: seq<Gauge>) {
    && |gs| == |ps| + 1
    && gs[0] == INITIAL
    && forall n {:trigger ps[n]} :: 0 <= n < |ps| ==> gs[n + 1] == Step(gs[n], ps[n])
  }

  predicate Overshoots(g: Gauge, p: Push) {
    p.Move? && g.threshold != 0 && g.depth + p.delta < 0.0
  }

  predicate Interior(g: Gauge, p: Push) {
    p.Move? && g.threshold != 0 && g.depth + p.delta >= 0.0
  }

  /** What ends a push against the wall. */
  predicate Breaks(g: Gauge, p: Push) {
    Interior(g, p) || p.Begin? || p.Release?
  }

  predicate Fires(g: Gauge, p: Push) {
    p.Fire? && g.armed
  }

  /** Motion the modelled cursor could not absorb. */
  function Unabsorbed(g: Gauge, p: Push): real {
    if Overshoots(g, p) then -(g.depth + p.delta) else 0.0
  }

  ghost predicate Inv(g: Gauge) {
    g.depth >= 0.0 && g.pressure >= 0.0 && (g.pressure > 0.0 ==> g.depth == 0.0)
  }

  lemma StepKeepsInv(g: Gauge, p: Push)
    requires Inv(g)
    ensures Inv(Step(g, p))
  {
  }

  lemma {:induction false} RunKeepsInv(ps: seq<Push>, gs: seq<Gauge>, n: nat)
    requires Run(ps, gs) && n <= |ps|
    ensures Inv(gs[n])
  {
    if n > 0 {
      RunKeepsInv(ps, gs, n - 1);
      StepKeepsInv(gs[n - 1], ps[n - 1]);
    }
  }

  //
  // What the pressure measures
  //

  ghost function TotalUnabsorbed(ps: seq<Push>, gs: seq<Gauge>, k: nat, n: nat): real
    requires k <= n <= |ps| < |gs|
  {
    if k == n then 0.0 else TotalUnabsorbed(ps, gs, k, n - 1) + Unabsorbed(gs[n - 1], ps[n - 1])
  }

  ghost predicate Unbroken(ps: seq<Push>, gs: seq<Gauge>, k: nat, n: nat)
    requires n <= |ps| < |gs|
  {
    forall i :: k <= i < n ==> !Breaks(gs[i], ps[i])
  }

  /**
   The pressure is exactly the motion left unabsorbed since the last interior motion, Begin or release,
   whatever else happens in between.
   */
  lemma {:induction false} PressureIsExact(ps: seq<Push>, gs: seq<Gauge>, n: nat) returns (k: nat)
    requires Run(ps, gs) && n <= |ps|
    ensures k <= n && (k > 0 ==> Breaks(gs[k - 1], ps[k - 1])) && Unbroken(ps, gs, k, n)
    ensures gs[n].pressure == TotalUnabsorbed(ps, gs, k, n)
  {
    if n == 0 || Breaks(gs[n - 1], ps[n - 1]) {
      k := n;
    } else {
      k := PressureIsExact(ps, gs, n - 1);
    }
  }

  /** Sum of the deltas of `ps[k..n]`. */
  ghost function Travel(ps: seq<Push>, k: nat, n: nat): real
    requires k <= n <= |ps|
  {
    if k == n then 0.0 else Travel(ps, k, n - 1) + if ps[n - 1].Move? then ps[n - 1].delta else 0.0
  }

  /**
   Over a run of overshooting motions the unabsorbed total telescopes: it is minus the depth at the start
   of the run plus the deltas of the run.
   */
  lemma {:induction false} OvershootTelescopes(ps: seq<Push>, gs: seq<Gauge>, k: nat, n: nat)
    requires Run(ps, gs) && k < n <= |ps|
    requires forall i :: k <= i < n ==> Overshoots(gs[i], ps[i])
    ensures TotalUnabsorbed(ps, gs, k, n) == -(gs[k].depth + Travel(ps, k, n))
    ensures gs[n].depth == 0.0
  {
    assert Overshoots(gs[n - 1], ps[n - 1]);
    if k < n - 1 {
      OvershootTelescopes(ps, gs, k, n - 1);
    } else {
      assert TotalUnabsorbed(ps, gs, k, k) == 0.0 == Travel(ps, k, k);
    }
  }

  //
  // Arming and firing
  //

  /** Unbroken overshoot since `k` reached the nonzero threshold at `j`, and nothing has disarmed it before `n`. */
  ghost predicate ArmedBy(ps: seq<Push>, gs: seq<Gauge>, k: nat, j: nat, n: nat)
    requires n <= |ps| < |gs|
  {
    && k <= j < n
    && Unbroken(ps, gs, k, j + 1) && Overshoots(gs[j], ps[j])
    && TotalUnabsorbed(ps, gs, k, j + 1) >= gs[j].threshold as real > 0.0
    && forall i :: j < i < n ==> !Interior(gs[i], ps[i]) && !ps[i].Release? && !Fires(gs[i], ps[i])
  }

  /**
   Whenever an AutoRelease is armed, and so whenever one fires, some overshooting run totalling at least
   the threshold armed it, and since then there was no interior motion, no release and no firing.
   */
  lemma {:induction false} ArmedByOvershoot(ps: seq<Push>, gs: seq<Gauge>, n: nat) returns (k: nat, j: nat)
    requires Run(ps, gs) && n <= |ps| && gs[n].armed
    ensures ArmedBy(ps, gs, k, j, n)
  {
    if Overshoots(gs[n - 1], ps[n - 1]) && gs[n].pressure >= gs[n - 1].threshold as real {
      k := PressureIsExact(ps, gs, n);
      j := n - 1;
      RunKeepsInv(ps, gs, n - 1);
      assert !Breaks(gs[j], ps[j]);
    } else {
      k, j := ArmedByOvershoot(ps, gs, n - 1);
    }
  }

  lemma {:induction false} PressureCoversUnabsorbed(ps: seq<Push>, gs: seq<Gauge>, k: nat, n: nat)
    requires Run(ps, gs) && k <= n <= |ps| && Unbroken(ps, gs, k, n)
    ensures gs[n].pressure >= TotalUnabsorbed(ps, gs, k, n)
  {
    if k == n {
      RunKeepsInv(ps, gs, n);
    } else {
      PressureCoversUnabsorbed(ps, gs, k, n - 1);
      assert !Breaks(gs[n - 1], ps[n - 1]);
    }
  }

  lemma {:induction false} StaysArmed(ps: seq<Push>, gs: seq<Gauge>, j: nat, n: nat)
    requires Run(ps, gs) && j < n <= |ps| && gs[j + 1].armed
    requires forall i :: j < i < n ==> !Interior(gs[i], ps[i]) && !ps[i].Release? && !Fires(gs[i], ps[i])
    ensures gs[n].armed
  {
    if j + 1 < n {
      StaysArmed(ps, gs, j, n - 1);
      assert !Interior(gs[n - 1], ps[n - 1]);
    }
  }

  /**
   And every such run leaves an AutoRelease armed until one of these comes: smaller overshoots, a raised threshold and
   a Begin do not disarm it.
   */
  lemma ArmedExactly(ps: seq<Push>, gs: seq<Gauge>, n: nat)
    requires Run(ps, gs) && n <= |ps|
    ensures gs[n].armed <==> exists k: nat, j: nat :: ArmedBy(ps, gs, k, j, n)
  {
    if gs[n].armed {
      var k, j := ArmedByOvershoot(ps, gs, n);
    }
    if k: nat, j: nat :| ArmedBy(ps, gs, k, j, n) {
      PressureCoversUnabsorbed(ps, gs, k, j + 1);
      assert Overshoots(gs[j], ps[j]);
      StaysArmed(ps, gs, j, n);
    }
  }

  /** With the threshold at 0 throughout, nothing is ever armed. */
  lemma ZeroThresholdNeverArms(ps: seq<Push>, gs: seq<Gauge>, n: nat)
    requires Run(ps, gs) && n <= |ps|
    requires forall i :: 0 <= i < |ps| ==> gs[i].threshold == 0
    ensures !gs[n].armed
  {
    if gs[n].armed {
      var k, j := ArmedByOvershoot(ps, gs, n);
      assert false;
    }
  }

  /** With the threshold on, the pushes of `[k, n)` are idle or motions away from the guest's interior. */
  ghost predicate OutwardRun(ps: seq<Push>, gs: seq<Gauge>, k: nat, n: nat)
    requires n <= |ps| < |gs|
  {
    && (k < n ==> gs[k].threshold != 0)
    && forall i :: k <= i < n ==> ps[i].Idle? || (ps[i].Move? && ps[i].delta < 0.0)
  }

  /** Along an outward run, depth minus pressure falls at least as fast as the travel. */
  lemma {:induction false} OutwardRunAdvances(ps: seq<Push>, gs: seq<Gauge>, k: nat, n: nat)
    requires Run(ps, gs) && k <= n <= |ps| && OutwardRun(ps, gs, k, n)
    ensures gs[n].depth - gs[n].pressure <= gs[k].depth - gs[k].pressure + Travel(ps, k, n)
    ensures gs[n].threshold == gs[k].threshold
    ensures Travel(ps, k, n) < 0.0 && gs[n].pressure >= gs[k].threshold as real ==> gs[n].armed
  {
    if k < n {
      OutwardRunAdvances(ps, gs, k, n - 1);
      RunKeepsInv(ps, gs, n - 1);
      OutwardStep(gs[n - 1], ps[n - 1]);
    }
  }

  lemma OutwardStep(g: Gauge, p: Push)
    requires Inv(g) && g.threshold != 0 && (p.Idle? || (p.Move? && p.delta < 0.0))
    ensures p.Idle? ==> Step(g, p) == g
    ensures p.Move? ==>
              && Step(g, p).depth - Step(g, p).pressure <= g.depth - g.pressure + p.delta
              && Step(g, p).threshold == g.threshold
              && (Step(g, p).pressure >= g.threshold as real ==> Step(g, p).armed)
  {
  }

  /** The extent is known and fixed for every motion since the Begin at `b`. */
  ghost predicate ExtentFixedSince(ps: seq<Push>, b: nat, n: nat, extent: nat)
    requires n <= |ps|
  {
    b < n && ps[b].Begin? && forall i :: b < i < n && ps[i].Move? ==> ps[i].extent == Some(extent)
  }

  lemma {:induction false} DepthStaysWithinExtent(ps: seq<Push>, gs: seq<Gauge>, b: nat, n: nat, extent: nat)
    requires Run(ps, gs) && n <= |ps| && ExtentFixedSince(ps, b, n, extent)
    ensures gs[n].depth <= extent as real
  {
    if b + 1 < n {
      DepthStaysWithinExtent(ps, gs, b, n - 1, extent);
    }
    assert gs[n] == Step(gs[n - 1], ps[n - 1]);
  }

  /**
   AutoRelease cannot be missed: with the peer's extent E known and fixed since Begin, after any earlier
   motion, a run of outward motions, idle steps between them, whose travel totals at least E plus the
   threshold leaves an AutoRelease armed.
   */
  lemma LongOutwardRunArms(ps: seq<Push>, gs: seq<Gauge>, b: nat, k: nat, n: nat, extent: nat)
    requires Run(ps, gs) && b < k < n <= |ps|
    requires ExtentFixedSince(ps, b, k, extent) && OutwardRun(ps, gs, k, n)
    requires -Travel(ps, k, n) >= extent as real + gs[k].threshold as real
    ensures gs[n].armed
  {
    DepthStaysWithinExtent(ps, gs, b, k, extent);
    OutwardRunAdvances(ps, gs, k, n);
    RunKeepsInv(ps, gs, k);
    RunKeepsInv(ps, gs, n);
  }

  //
  // Where the model surprises
  //

  ghost predicate ArmedMeansPressure(g: Gauge) {
    g.armed ==> g.pressure >= g.threshold as real
  }

  lemma ArmedMeansPressureStep(g: Gauge, p: Push)
    requires Inv(g) && g.threshold > 0 && !p.SetThreshold? && ArmedMeansPressure(g)
    ensures ArmedMeansPressure(Step(g, p)) <==> !(p.Begin? && g.armed)
    ensures Step(g, p).threshold == g.threshold
  {
  }

  /**
   Begin does not cancel an armed AutoRelease, so "armed means the pressure is over the threshold" is not
   an invariant. With a fixed nonzero threshold it holds throughout a run if and only if no Begin comes
   while one is armed.
   */
  lemma ArmedMeansPressureExactly(ps: seq<Push>, gs: seq<Gauge>, start: nat)
    requires Run(ps, gs) && start <= |ps|
    requires gs[start].threshold > 0 && !gs[start].armed
    requires forall i :: start <= i < |ps| ==> !ps[i].SetThreshold?
    ensures (forall n :: start <= n <= |ps| ==> ArmedMeansPressure(gs[n]))
            <==> (forall i :: start <= i < |ps| && ps[i].Begin? ==> !gs[i].armed)
  {
    if forall i :: start <= i < |ps| && ps[i].Begin? ==> !gs[i].armed {
      forall n | start <= n <= |ps|
        ensures ArmedMeansPressure(gs[n])
      {
        ArmedMeansPressureTo(ps, gs, start, n);
      }
    }
    if forall n :: start <= n <= |ps| ==> ArmedMeansPressure(gs[n]) {
      forall i | start <= i < |ps| && ps[i].Begin?
        ensures !gs[i].armed
      {
        RunKeepsInv(ps, gs, i);
        ThresholdStays(ps, gs, start, i);
        assert ArmedMeansPressure(gs[i]) && ArmedMeansPressure(gs[i + 1]);
        ArmedMeansPressureStep(gs[i], ps[i]);
      }
    }
  }

  lemma {:induction false} ThresholdStays(ps: seq<Push>, gs: seq<Gauge>, start: nat, n: nat)
    requires Run(ps, gs) && start <= n <= |ps|
    requires forall i :: start <= i < |ps| ==> !ps[i].SetThreshold?
    ensures gs[n].threshold == gs[start].threshold
  {
    if start < n {
      ThresholdStays(ps, gs, start, n - 1);
      assert gs[n] == Step(gs[n - 1], ps[n - 1]);
    }
  }

  lemma {:induction false} ArmedMeansPressureTo(ps: seq<Push>, gs: seq<Gauge>, start: nat, n: nat)
    requires Run(ps, gs) && start <= n <= |ps|
    requires gs[start].threshold > 0 && !gs[start].armed
    requires forall i :: start <= i < |ps| ==> !ps[i].SetThreshold?
    requires forall i :: start <= i < |ps| && ps[i].Begin? ==> !gs[i].armed
    ensures ArmedMeansPressure(gs[n]) && gs[n].threshold == gs[start].threshold
  {
    if start < n {
      ArmedMeansPressureTo(ps, gs, start, n - 1);
      RunKeepsInv(ps, gs, n - 1);
      ArmedMeansPressureStep(gs[n - 1], ps[n - 1]);
    }
  }

  /** The stale arming itself: a press of 30 against a threshold of 20, then a Begin. */
  lemma BeginKeepsStaleArm() returns (ps: seq<Push>, gs: seq<Gauge>)
    ensures Run(ps, gs) && |ps| == 4 && ps[3].Begin? && gs[4].armed && gs[4].pressure == 0.0
  {
    ps := [SetThreshold(20), Begin, Move(-30.0, None), Begin];
    gs := [INITIAL, Gauge(0.0, 0.0, false, 20), Gauge(0.0, 0.0, false, 20), Gauge(0.0, 30.0, true, 20),
           Gauge(0.0, 0.0, true, 20)];
  }

  /**
   At the wall the pressure survives a motion exactly when the motion has an outward component: a motion
   along the wall proposes depth 0, which counts as interior and drops all pressure and the armed release.
   */
  lemma MotionAlongWallResets(g: Gauge, p: Push)
    requires Inv(g) && g.pressure > 0.0 && p.Move? && g.threshold != 0
    ensures var g' := Step(g, p);
            if p.delta < 0.0 then g'.pressure > g.pressure else g'.pressure == 0.0 && !g'.armed
  {
  }
}
