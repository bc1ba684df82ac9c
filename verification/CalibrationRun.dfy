/**
  The calibration protocol as a state machine over input samples: what every run of events
  keeps, and what a finished run has computed.
 */
module CalibrationRun {
  import opened Numbers
  import opened Options
  import opened Points
  import opened Calibration
  import opened Crosshairs

  const STEP_INIT := 0
  const STEP_FIRST := 1
  const STEP_FINISH := 4

  /** A raw reading of the touch driver. */
  datatype Sample = Sample(pressed: bool, point: Point)

  /** What LVGL gets to see; the point is None where C leaves the transform undefined. */
  datatype Delivered = Delivered(pressed: bool, point: Option<Point>)

  const SWALLOWED := Delivered(false, Some(Point(0, 0)))

  /** The calibration screen and the driver's static variables. */
  datatype Machine = Machine(
    inputEnabled: bool, scr: seq<Point>, tch: seq<Point>, step: int, tapCount: int, accum: Point,
    coeff: Coeff, lastPoint: Point, lastPressed: bool)
  {
    /** taps is the configured number of taps per crosshair. */
    predicate Valid(taps: int) {
      |scr| == 3 && |tch| == 3 && STEP_INIT <= step <= STEP_FINISH && 0 <= tapCount < taps
    }

    /** Between STEP_INIT and STEP_FINISH a press is a tap, if the finger was lifted before. */
    predicate Counts(s: Sample) {
      inputEnabled && s.pressed && STEP_INIT < step < STEP_FINISH
    }
  }

  /** Start the screen, its delay timer firing, or one sample; active: the screen is shown. */
  datatype Event = Start | DelayElapsed | Read(sample: Sample, active: bool)

  // ---- the handlers ----

  function EnterStep(m: Machine, step: int, p: Point, d: Display): Machine
    requires |m.scr| == 3 && |m.tch| == 3 && STEP_INIT <= step <= STEP_FINISH
  {
    var tch := if step > STEP_FIRST then m.tch[step - 2 := p] else m.tch;
    var coeff := if step == STEP_FINISH then ComputeCoeff(AllNative(d, m.scr), tch) else m.coeff;
    m.(step := step, tapCount := 0, accum := Point(0, 0), tch := tch, coeff := coeff)
  }

  function CountTap(m: Machine, p: Point, taps: int, d: Display): Machine
    requires taps >= 1 && m.Valid(taps) && STEP_INIT < m.step < STEP_FINISH
  {
    var accum := Point(m.accum.x + p.x, m.accum.y + p.y);
    var more := m.(inputEnabled := false, accum := accum, tapCount := m.tapCount + 1);
    if more.tapCount >= taps
    then EnterStep(more, m.step + 1, Point(TruncDiv(accum.x, taps), TruncDiv(accum.y, taps)), d)
    else more
  }

  /** lv_tc_screen_input_cb: the machine afterwards, and whether the sample is passed on. */
  function OnInput(m: Machine, s: Sample, taps: int, d: Display): (r: (Machine, bool))
    requires taps >= 1 && m.Valid(taps)
    ensures r.0.Valid(taps)
  {
    var tapped := if m.Counts(s) then CountTap(m, s.point, taps, d) else m;
    var lifted := if s.pressed then tapped else tapped.(inputEnabled := true);
    (lifted, lifted.step >= STEP_FINISH)
  }

  /** _lv_tc_transform_point_indev. */
  function OnPassed(m: Machine, s: Sample): (Machine, Delivered) {
    if s.pressed then
      (m.(lastPoint := s.point, lastPressed := true), Delivered(true, TransformPoint(m.coeff, s.point)))
    else if m.lastPressed then
      (m.(lastPressed := false), Delivered(false, TransformPoint(m.coeff, m.lastPoint)))
    else (m, Delivered(false, Some(Point(0, 0))))
  }

  /** lv_tc_indev_drv_read_cb. */
  function OnRead(m: Machine, s: Sample, active: bool, taps: int, d: Display): (r: (Machine, Delivered))
    requires taps >= 1 && m.Valid(taps)
    ensures r.0.Valid(taps)
  {
    if active then
      var (n, passed) := OnInput(m, s, taps, d);
      if passed then OnPassed(n, s) else (n, SWALLOWED)
    else OnPassed(m, s)
  }

  function Handle(m: Machine, e: Event, taps: int, d: Display): (n: Machine)
    requires taps >= 1 && m.Valid(taps)
    ensures n.Valid(taps) && n.scr == m.scr
  {
    match e
    case Start => EnterStep(m, STEP_INIT, Point(0, 0), d)
    case DelayElapsed => EnterStep(m, STEP_FIRST, Point(0, 0), d)
    case Read(s, active) => OnRead(m, s, active, taps, d).0
  }

  /** The machine after a run of events. */
  function Run(m: Machine, es: seq<Event>, taps: int, d: Display): (n: Machine)
    requires taps >= 1 && m.Valid(taps)
    ensures n.Valid(taps) && n.scr == m.scr
  {
    if es == [] then m else Handle(Run(m, es[..|es| - 1], taps, d), es[|es| - 1], taps, d)
  }

  /** A screen as its constructor leaves it, or after a start: no step entered, nothing collected. */
  predicate Fresh(m: Machine) {
    m.step == STEP_INIT && m.tapCount == 0 && m.accum == Point(0, 0)
  }

  // ---- the taps of a run ----

  /** The points counted since the machine last left STEP_INIT. */
  function Counted(m: Machine, es: seq<Event>, taps: int, d: Display): seq<Point>
    requires taps >= 1 && m.Valid(taps)
  {
    if es == [] then []
    else
      var before := es[..|es| - 1];
      match es[|es| - 1]
      case Read(s, active) =>
        if active && Run(m, before, taps, d).Counts(s) then Counted(m, before, taps, d) + [s.point]
        else Counted(m, before, taps, d)
      case _ => []
  }

  function Sum(ps: seq<Point>): Point {
    if ps == [] then Point(0, 0)
    else
      var s := Sum(ps[..|ps| - 1]);
      Point(s.x + ps[|ps| - 1].x, s.y + ps[|ps| - 1].y)
  }

  /** The truncated mean of a group of taps. */
  function Mean(ps: seq<Point>): Point
    requires |ps| > 0
  {
    Point(TruncDiv(Sum(ps).x, |ps|), TruncDiv(Sum(ps).y, |ps|))
  }

  function Flat(gs: seq<seq<Point>>): seq<Point> {
    if gs == [] then [] else Flat(gs[..|gs| - 1]) + gs[|gs| - 1]
  }

  /** Full groups gs and the started group cur account for everything the machine holds. */
  predicate Accounts(m: Machine, gs: seq<seq<Point>>, cur: seq<Point>, taps: int, d: Display)
    requires taps >= 1 && m.Valid(taps)
  {
    && |gs| == (if m.step == STEP_INIT then 0 else m.step - 1)
    && (forall i :: 0 <= i < |gs| ==> |gs[i]| == taps && m.tch[i] == Mean(gs[i]))
    && |cur| == m.tapCount && m.accum == Sum(cur)
    && (m.step == STEP_FINISH ==> m.coeff == ComputeCoeff(AllNative(d, m.scr), m.tch))
  }

  /** A tap that does not complete its group. */
  lemma TapJoinsGroup(m: Machine, gs: seq<seq<Point>>, cur: seq<Point>, p: Point, taps: int, d: Display)
    requires taps >= 1 && m.Valid(taps) && STEP_INIT < m.step < STEP_FINISH && Accounts(m, gs, cur, taps, d)
    requires m.tapCount + 1 < taps
    ensures Accounts(CountTap(m, p, taps, d), gs, cur + [p], taps, d)
  {
  }

  /** A tap that completes its group moves to the next step. */
  lemma TapClosesGroup(m: Machine, gs: seq<seq<Point>>, cur: seq<Point>, p: Point, taps: int, d: Display)
    requires taps >= 1 && m.Valid(taps) && STEP_INIT < m.step < STEP_FINISH && Accounts(m, gs, cur, taps, d)
    requires m.tapCount + 1 >= taps
    ensures Accounts(CountTap(m, p, taps, d), gs + [cur + [p]], [], taps, d)
  {
    hide ComputeCoeff, TruncDiv, Mean;
    MeanOfClosedGroup(m, cur, p, taps);
    var n := CountTap(m, p, taps, d);
    var hs := gs + [cur + [p]];
    assert n.step == m.step + 1 && |hs| == m.step;
    assert n.tch == m.tch[m.step - 1 := Mean(cur + [p])];
    forall i | 0 <= i < |hs| ensures |hs[i]| == taps && n.tch[i] == Mean(hs[i]) {
      assert i < |gs| ==> hs[i] == gs[i];
    }
  }

  lemma MeanOfClosedGroup(m: Machine, cur: seq<Point>, p: Point, taps: int)
    requires |cur| + 1 == taps && m.accum == Sum(cur)
    ensures Mean(cur + [p]) == Point(TruncDiv(m.accum.x + p.x, taps), TruncDiv(m.accum.y + p.y, taps))
  {
  }

  lemma FlatOfMore(gs: seq<seq<Point>>, g: seq<Point>)
    ensures Flat(gs + [g]) == Flat(gs) + g
  {
  }

  lemma CountedTapIsAccounted(m: Machine, gs: seq<seq<Point>>, cur: seq<Point>, p: Point, taps: int, d: Display)
    returns (hs: seq<seq<Point>>, next: seq<Point>)
    requires taps >= 1 && m.Valid(taps) && STEP_INIT < m.step < STEP_FINISH && Accounts(m, gs, cur, taps, d)
    ensures Accounts(CountTap(m, p, taps, d), hs, next, taps, d)
    ensures Flat(hs) + next == Flat(gs) + cur + [p]
  {
    hide Accounts, CountTap;
    if m.tapCount + 1 >= taps {
      TapClosesGroup(m, gs, cur, p, taps, d);
      hs, next := gs + [cur + [p]], [];
      FlatOfMore(gs, cur + [p]);
    } else {
      TapJoinsGroup(m, gs, cur, p, taps, d);
      hs, next := gs, cur + [p];
    }
  }

  /** One event more: a counted tap joins or closes a group, start and delay begin again. */
  lemma EventIsAccounted(m: Machine, gs: seq<seq<Point>>, cur: seq<Point>, e: Event, taps: int, d: Display)
    returns (hs: seq<seq<Point>>, next: seq<Point>)
    requires taps >= 1 && m.Valid(taps) && Accounts(m, gs, cur, taps, d)
    ensures Accounts(Handle(m, e, taps, d), hs, next, taps, d)
    ensures Flat(hs) + next
            == match e
               case Read(s, active) =>
                 if active && m.Counts(s) then Flat(gs) + cur + [s.point] else Flat(gs) + cur
               case _ => []
  {
    hide ComputeCoeff, CountTap, Mean, Sum;
    if e.Read? {
      hs, next := gs, cur;
      if e.active && m.Counts(e.sample) {
        hs, next := CountedTapIsAccounted(m, gs, cur, e.sample.point, taps, d);
      }
    } else {
      hs, next := [], [];
      NothingToSum();
    }
  }

  lemma NothingToSum()
    ensures Sum([]) == Point(0, 0)
  {
  }

  /**
    Every run from a fresh screen: the counted taps split into full groups, whose truncated
    means are stored as touch points, and a started group, whose sum is the accumulator; at
    STEP_FINISH the coefficients are those of the stored touch points.
   */
  lemma {:induction false} RunAccountsForTaps(m: Machine, es: seq<Event>, taps: int, d: Display)
    returns (gs: seq<seq<Point>>, cur: seq<Point>)
    requires taps >= 1 && m.Valid(taps) && Fresh(m)
    ensures Accounts(Run(m, es, taps, d), gs, cur, taps, d)
    ensures Counted(m, es, taps, d) == Flat(gs) + cur
  {
    hide ComputeCoeff, CountTap, Handle;
    if es == [] {
      gs, cur := [], [];
    } else {
      hide Accounts, Flat;
      gs, cur := RunAccountsForTaps(m, es[..|es| - 1], taps, d);
      gs, cur := EventIsAccounted(Run(m, es[..|es| - 1], taps, d), gs, cur, es[|es| - 1], taps, d);
    }
  }

  lemma {:induction false} FlatLength(gs: seq<seq<Point>>, k: int)
    requires forall i :: 0 <= i < |gs| ==> |gs[i]| == k
    ensures |Flat(gs)| == |gs| * k
  {
    if gs != [] {
      FlatLength(gs[..|gs| - 1], k);
      assert (|gs| - 1) * k + k == |gs| * k;
    }
  }

  /** Between samples the number of counted taps is fixed by the step and the tap counter. */
  lemma TapsMatchStep(m: Machine, es: seq<Event>, taps: int, d: Display)
    requires taps >= 1 && m.Valid(taps) && Fresh(m)
    ensures var n := Run(m, es, taps, d);
            && 0 <= n.tapCount < taps
            && (n.step > STEP_INIT ==> |Counted(m, es, taps, d)| == (n.step - 1) * taps + n.tapCount)
  {
    var gs, cur := RunAccountsForTaps(m, es, taps, d);
    FlatLength(gs, taps);
  }

  /**
    A finished run made exactly three groups of taps; each stored touch point is the truncated
    mean of its group, and, if the three means are not collinear, transforming a mean gives
    exactly the crosshair in the panel's native orientation.
   */
  lemma FinishedRun(m: Machine, es: seq<Event>, taps: int, d: Display)
    returns (g0: seq<Point>, g1: seq<Point>, g2: seq<Point>)
    requires taps >= 1 && m.Valid(taps) && Fresh(m) && Run(m, es, taps, d).step == STEP_FINISH
    ensures |g0| == |g1| == |g2| == taps
    ensures Counted(m, es, taps, d) == g0 + g1 + g2
    ensures var n := Run(m, es, taps, d);
            && n.tch == [Mean(g0), Mean(g1), Mean(g2)]
            && n.coeff == ComputeCoeff(AllNative(d, m.scr), n.tch)
            && (SignedArea(n.tch) != 0 ==>
                  && TransformPoint(n.coeff, Mean(g0)) == Some(ToNative(d, m.scr[0]))
                  && TransformPoint(n.coeff, Mean(g1)) == Some(ToNative(d, m.scr[1]))
                  && TransformPoint(n.coeff, Mean(g2)) == Some(ToNative(d, m.scr[2])))
  {
    hide ComputeCoeff, TransformPoint, SignedArea, Mean, ToNative;
    var n := Run(m, es, taps, d);
    var gs, cur := RunAccountsForTaps(m, es, taps, d);
    g0, g1, g2 := gs[0], gs[1], gs[2];
    assert gs == [g0, g1, g2];
    FlatOfThree(g0, g1, g2);
    NoTapsAfterFinish(m, es, taps, d);
    assert cur == [];
    assert n.tch == [Mean(g0), Mean(g1), Mean(g2)];
    if SignedArea(n.tch) != 0 {
      TapsHitCrosshairs(AllNative(d, m.scr), n.tch, 0);
      TapsHitCrosshairs(AllNative(d, m.scr), n.tch, 1);
      TapsHitCrosshairs(AllNative(d, m.scr), n.tch, 2);
    }
  }

  lemma FlatOfThree(g0: seq<Point>, g1: seq<Point>, g2: seq<Point>)
    ensures Flat([g0, g1, g2]) == g0 + g1 + g2
  {
    FlatOfMore([], g0);
    FlatOfMore([g0], g1);
    FlatOfMore([g0, g1], g2);
    assert [] + [g0] == [g0] && [g0] + [g1] == [g0, g1] && [g0, g1] + [g2] == [g0, g1, g2];
  }

  /** At STEP_FINISH the tap counter is zero: nothing more is counted. */
  lemma {:induction false} NoTapsAfterFinish(m: Machine, es: seq<Event>, taps: int, d: Display)
    requires taps >= 1 && m.Valid(taps) && Fresh(m)
    ensures Run(m, es, taps, d).step == STEP_FINISH ==> Run(m, es, taps, d).tapCount == 0
  {
    hide ComputeCoeff;
    if es != [] {
      NoTapsAfterFinish(m, es[..|es| - 1], taps, d);
    }
  }

  // ---- debouncing ----

  /** Event i of the run is a counted tap. */
  predicate TapAt(m: Machine, es: seq<Event>, i: int, taps: int, d: Display)
    requires taps >= 1 && m.Valid(taps)
  {
    0 <= i < |es| && es[i].Read? && es[i].active && Run(m, es[..i], taps, d).Counts(es[i].sample)
  }

  /** Every point counted is the raw point of a pressed sample that was a tap. */
  lemma {:induction false} CountedWasTapped(m: Machine, es: seq<Event>, p: Point, taps: int, d: Display)
    returns (i: nat)
    requires taps >= 1 && m.Valid(taps) && p in Counted(m, es, taps, d)
    ensures i < |es| && TapAt(m, es, i, taps, d) && es[i].sample == Sample(true, p)
  {
    hide Run;
    var n := |es| - 1;
    if p in Counted(m, es[..n], taps, d) {
      i := CountedWasTapped(m, es[..n], p, taps, d);
      assert es[..n][..i] == es[..i];
    } else {
      i := n;
    }
  }

  predicate ReleaseAt(es: seq<Event>, k: int) {
    0 <= k < |es| && es[k].Read? && es[k].active && !es[k].sample.pressed
  }

  lemma DisabledUntilRelease(m: Machine, e: Event, taps: int, d: Display)
    requires taps >= 1 && m.Valid(taps) && !m.inputEnabled && !(e.Read? && e.active && !e.sample.pressed)
    ensures !Handle(m, e, taps, d).inputEnabled
  {
    hide ComputeCoeff;
  }

  lemma CountingDisables(m: Machine, e: Event, taps: int, d: Display)
    requires taps >= 1 && m.Valid(taps) && e.Read? && e.active && m.Counts(e.sample)
    ensures !Handle(m, e, taps, d).inputEnabled
  {
    hide ComputeCoeff;
  }

  lemma {:induction false} StaysDisabled(m: Machine, es: seq<Event>, i: int, j: int, taps: int, d: Display)
    requires taps >= 1 && m.Valid(taps) && i < j <= |es| && TapAt(m, es, i, taps, d)
    requires forall k :: i < k < j ==> !ReleaseAt(es, k)
    ensures !Run(m, es[..j], taps, d).inputEnabled
  {
    hide Handle;
    assert es[..j][..j - 1] == es[..j - 1];
    var before := Run(m, es[..j - 1], taps, d);
    if j == i + 1 {
      CountingDisables(before, es[i], taps, d);
    } else {
      StaysDisabled(m, es, i, j - 1, taps, d);
      assert !ReleaseAt(es, j - 1);
      DisabledUntilRelease(before, es[j - 1], taps, d);
    }
  }

  /** Between any two counted taps of any run the finger was seen lifted. */
  lemma ReleaseBetweenTaps(m: Machine, es: seq<Event>, i: int, j: int, taps: int, d: Display)
    requires taps >= 1 && m.Valid(taps) && i < j && TapAt(m, es, i, taps, d) && TapAt(m, es, j, taps, d)
    ensures exists k :: i < k < j && ReleaseAt(es, k)
  {
    if forall k :: i < k < j ==> !ReleaseAt(es, k) {
      StaysDisabled(m, es, i, j, taps, d);
      assert false;
    }
  }

  // ---- the start delay ----

  predicate AllShown(es: seq<Event>) {
    forall k :: 0 <= k < |es| ==> es[k].Read? && es[k].active
  }

  lemma DelayStep(m: Machine, e: Event, taps: int, d: Display)
    requires taps >= 1 && m.Valid(taps) && m.step == STEP_INIT && e.Read? && e.active
    ensures var n := Handle(m, e, taps, d);
            n.step == STEP_INIT && (n.inputEnabled <==> m.inputEnabled || !e.sample.pressed)
  {
  }

  lemma StartKeepsInput(m: Machine, taps: int, d: Display)
    requires taps >= 1 && m.Valid(taps)
    ensures var n := Handle(m, Start, taps, d);
            n.step == STEP_INIT && (n.inputEnabled <==> m.inputEnabled)
  {
  }

  lemma {:induction false} DuringDelay(m: Machine, es: seq<Event>, taps: int, d: Display)
    requires taps >= 1 && m.Valid(taps) && AllShown(es)
    ensures var n := Run(m, [Start] + es, taps, d);
            n.step == STEP_INIT && (n.inputEnabled <==> m.inputEnabled || exists k :: ReleaseAt(es, k))
  {
    hide Handle;
    if es == [] {
      assert [Start] + es == [Start];
      assert [Start][..0] == [];
      StartKeepsInput(m, taps, d);
    } else {
      var n := |es| - 1;
      DuringDelay(m, es[..n], taps, d);
      assert ([Start] + es)[..n + 1] == [Start] + es[..n];
      DelayStep(Run(m, [Start] + es[..n], taps, d), es[n], taps, d);
      assert forall k :: ReleaseAt(es[..n], k) ==> ReleaseAt(es, k);
      assert forall k :: ReleaseAt(es, k) && k != n ==> ReleaseAt(es[..n], k);
      assert ReleaseAt(es, n) <==> !es[n].sample.pressed;
    }
  }

  /**
    The start delay is documented to keep the opening press from being registered. It does so
    only for a screen that already waited for a release: the first press after the delay is
    counted if and only if input was enabled at the start or the finger was lifted meanwhile.
    On a newly built screen, whose input is enabled, a finger held through the delay counts.
   */
  lemma PressAfterDelay(m: Machine, es: seq<Event>, p: Point, taps: int, d: Display)
    requires taps >= 1 && m.Valid(taps) && AllShown(es)
    ensures TapAt(m, [Start] + es + [DelayElapsed, Read(Sample(true, p), true)], |es| + 2, taps, d)
            <==> m.inputEnabled || exists k :: ReleaseAt(es, k)
  {
    hide ComputeCoeff;
    DuringDelay(m, es, taps, d);
    var all := [Start] + es + [DelayElapsed, Read(Sample(true, p), true)];
    assert all[..|es| + 2][..|es| + 1] == [Start] + es;
    assert all[..|es| + 2][|es| + 1] == DelayElapsed;
    assert all[|es| + 2] == Read(Sample(true, p), true);
  }

  // ---- the gate ----

  /** The samples that went through to the application, oldest first. */
  function Passed(m: Machine, es: seq<Event>, taps: int, d: Display): seq<Sample>
    requires taps >= 1 && m.Valid(taps)
  {
    if es == [] then []
    else
      var before := es[..|es| - 1];
      match es[|es| - 1]
      case Read(s, active) =>
        if active && !OnInput(Run(m, before, taps, d), s, taps, d).1 then Passed(m, before, taps, d)
        else Passed(m, before, taps, d) + [s]
      case _ => Passed(m, before, taps, d)
  }

  predicate EndsPressed(ss: seq<Sample>) {
    ss != [] && ss[|ss| - 1].pressed
  }

  lemma PassingRemembers(m: Machine, e: Event, taps: int, d: Display)
    requires taps >= 1 && m.Valid(taps)
    ensures var n := Handle(m, e, taps, d);
            if e.Read? && !(e.active && !OnInput(m, e.sample, taps, d).1)
            then (n.lastPressed <==> e.sample.pressed) && (e.sample.pressed ==> n.lastPoint == e.sample.point)
            else n.lastPressed == m.lastPressed && n.lastPoint == m.lastPoint
  {
    hide ComputeCoeff, TransformPoint;
  }

  /** The driver remembers exactly the last sample that went through. */
  lemma {:induction false} DriverRemembersPassed(m: Machine, es: seq<Event>, taps: int, d: Display)
    requires taps >= 1 && m.Valid(taps) && !m.lastPressed
    ensures var n, ss := Run(m, es, taps, d), Passed(m, es, taps, d);
            && (n.lastPressed <==> EndsPressed(ss))
            && (EndsPressed(ss) ==> n.lastPoint == ss[|ss| - 1].point)
  {
    hide Handle, OnInput;
    if es != [] {
      DriverRemembersPassed(m, es[..|es| - 1], taps, d);
      PassingRemembers(Run(m, es[..|es| - 1], taps, d), es[|es| - 1], taps, d);
    }
  }

  /**
    What a sample looks like after any run: while the screen is shown and not finished it is
    swallowed; otherwise a press is transformed, the first release after it reports the
    transform of that press, and any other release reports (0, 0).
   */
  lemma {:induction false} GateDelivers(m: Machine, es: seq<Event>, s: Sample, active: bool, taps: int, d: Display)
    requires taps >= 1 && m.Valid(taps) && !m.lastPressed
    ensures var ss := Passed(m, es, taps, d);
            var (n, out) := OnRead(Run(m, es, taps, d), s, active, taps, d);
            if active && n.step < STEP_FINISH then out == Delivered(false, Some(Point(0, 0)))
            else
              && out.pressed == s.pressed
              && out.point == (if s.pressed then TransformPoint(n.coeff, s.point)
                               else if EndsPressed(ss) then TransformPoint(n.coeff, ss[|ss| - 1].point)
                               else Some(Point(0, 0)))
  {
    hide ComputeCoeff, TransformPoint;
    DriverRemembersPassed(m, es, taps, d);
  }

  /**
    So a press after any run, once it gets through: with valid coefficients it is delivered as
    the point nearest to its affine image, and so is the release after it.
   */
  lemma PressIsDelivered(m: Machine, es: seq<Event>, s: Sample, active: bool, taps: int, d: Display)
    requires taps >= 1 && m.Valid(taps) && !m.lastPressed
    requires var n := OnRead(Run(m, es, taps, d), s, active, taps, d).0;
             n.coeff.Coeff? && n.coeff.isValid && !(active && n.step < STEP_FINISH)
    ensures var ss := Passed(m, es, taps, d);
            var (n, out) := OnRead(Run(m, es, taps, d), s, active, taps, d);
            && out.pressed == s.pressed && out.point.Some?
            && (s.pressed ==> IsImage(n.coeff, s.point, out.point.value))
            && (!s.pressed && EndsPressed(ss) ==> IsImage(n.coeff, ss[|ss| - 1].point, out.point.value))
            && (!s.pressed && !EndsPressed(ss) ==> out.point.value == Point(0, 0))
  {
    hide ComputeCoeff, TransformPoint, OnRead, IsImage, EndsPressed, Passed;
    GateDelivers(m, es, s, active, taps, d);
    var n, ss := OnRead(Run(m, es, taps, d), s, active, taps, d).0, Passed(m, es, taps, d);
    TransformRounds(n.coeff, s.point);
    if !s.pressed && EndsPressed(ss) {
      LastSample(ss);
      TransformRounds(n.coeff, ss[|ss| - 1].point);
    }
  }

  lemma LastSample(ss: seq<Sample>)
    requires EndsPressed(ss)
    ensures |ss| > 0
  {
  }

  // ---- the whole calibration ----

  lemma {:induction false} SumOfEqual(ps: seq<Point>, p: Point)
    requires forall i :: 0 <= i < |ps| ==> ps[i] == p
    ensures Sum(ps) == Point(p.x * |ps|, p.y * |ps|)
  {
    if ps != [] {
      SumOfEqual(ps[..|ps| - 1], p);
      assert p.x * (|ps| - 1) + p.x == p.x * |ps| && p.y * (|ps| - 1) + p.y == p.y * |ps|;
    }
  }

  /** The mean is the exact average of the coordinates without its fraction. */
  lemma MeanTruncates(ps: seq<Point>)
    requires |ps| > 0
    ensures Mean(ps).x * |ps| - |ps| < Sum(ps).x < Mean(ps).x * |ps| + |ps|
    ensures Mean(ps).y * |ps| - |ps| < Sum(ps).y < Mean(ps).y * |ps| + |ps|
    ensures Sum(ps).x >= 0 ==> 0 <= Mean(ps).x * |ps| <= Sum(ps).x
    ensures Sum(ps).x <= 0 ==> Sum(ps).x <= Mean(ps).x * |ps| <= 0
    ensures Sum(ps).y >= 0 ==> 0 <= Mean(ps).y * |ps| <= Sum(ps).y
    ensures Sum(ps).y <= 0 ==> Sum(ps).y <= Mean(ps).y * |ps| <= 0
  {
    hide Sum;
  }

  /** Tapping the same spot every time makes the mean that spot. */
  lemma MeanOfEqual(ps: seq<Point>, p: Point)
    requires |ps| > 0 && forall i :: 0 <= i < |ps| ==> ps[i] == p
    ensures Mean(ps) == p
  {
    SumOfEqual(ps, p);
    TruncDivExact(p.x, |ps|);
    TruncDivExact(p.y, |ps|);
  }

  /**
    End to end, with the automatic crosshairs on a display of at least 7 by 7 pixels: a
    finished run whose mean taps are not collinear leaves an invertible map that sends each
    mean tap to its crosshair's native point; on a display that is not rotated, or rotated in
    software, LVGL's own turn of the touch then brings it back to the crosshair.
   */
  lemma CalibrationIsCorrect(m: Machine, es: seq<Event>, taps: int, d: Display)
    returns (g0: seq<Point>, g1: seq<Point>, g2: seq<Point>)
    requires taps >= 1 && m.Valid(taps) && Fresh(m) && Run(m, es, taps, d).step == STEP_FINISH
    requires d.hor >= 7 && d.ver >= 7 && m.scr == AutoPoints(d.LogicalHor(), d.LogicalVer())
    requires SignedArea(Run(m, es, taps, d).tch) != 0
    ensures |g0| == |g1| == |g2| == taps && Counted(m, es, taps, d) == g0 + g1 + g2
    ensures var k := Run(m, es, taps, d).coeff;
            && k.Coeff? && k.isValid && k.a * k.e - k.b * k.d != 0.0
            && ReachesCrosshair(k, Mean(g0), m.scr[0], d)
            && ReachesCrosshair(k, Mean(g1), m.scr[1], d)
            && ReachesCrosshair(k, Mean(g2), m.scr[2], d)
  {
    hide ComputeCoeff, TransformPoint, SignedArea, Mean, ToNative, ToLogical, AutoPoints;
    g0, g1, g2 := FinishedRun(m, es, taps, d);
    var n := Run(m, es, taps, d);
    var scr := AllNative(d, m.scr);
    SolveIsExact(scr, n.tch);
    AutoPointsSpanArea(d.LogicalHor(), d.LogicalVer());
    RotationKeepsArea(d, m.scr);
    DeterminantIsAreaRatio(scr, n.tch, n.coeff);
    RotationIsBijection(d, m.scr[0]);
    RotationIsBijection(d, m.scr[1]);
    RotationIsBijection(d, m.scr[2]);
  }

  /** The driver sends the touch to the crosshair's native point, and LVGL back to the crosshair. */
  predicate ReachesCrosshair(k: Coeff, touch: Point, crosshair: Point, d: Display) {
    && TransformPoint(k, touch) == Some(ToNative(d, crosshair))
    && (d.swRotate || d.rotated.Rot0? ==> ToLogical(d, TransformPoint(k, touch).value) == crosshair)
  }
}
