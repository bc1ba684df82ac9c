/** The touch driver's statics and the calibration screen object, updated in place. */
module TouchCalibration {
  import opened Numbers
  import opened Options
  import opened Points
  import opened Calibration
  import opened Crosshairs
  import opened CalibrationRun

  /** The static variables of lv_tc.c. */
  class TouchDriver {
    var coeff: Coeff
    var saved: Option<Coeff>
    var lastPoint: Point
    var lastPressed: bool

    constructor ()
      ensures coeff == Coeff(false, 0.0, 0.0, 0.0, 0.0, 0.0, 0.0) && saved == None
      ensures lastPoint == Point(0, 0) && !lastPressed
    {
      coeff := Coeff(false, 0.0, 0.0, 0.0, 0.0, 0.0, 0.0);
      saved := None;
      lastPoint := Point(0, 0);
      lastPressed := false;
    }

    /** lv_tc_compute_coeff without saving: the closed form, stored. */
    method Compute(scr: array<Point>, tch: array<Point>)
      requires scr.Length == 3 && tch.Length == 3
      modifies `coeff
      ensures coeff == ComputeCoeff(scr[..], tch[..])
      ensures SignedArea(tch[..]) != 0 ==> coeff.Coeff? && coeff.isValid && Meets(coeff, scr[..], tch[..])
    {
      hide ComputeCoeff, SignedArea, Meets;
      SolveIsExact(scr[..], tch[..]);
      coeff := ComputeCoeff(scr[..], tch[..]);
    }

    /** _lv_tc_transform_point_indev, with the state of the sample it is called on. */
    method TransformSample(s: Sample) returns (out: Delivered)
      modifies `lastPoint, `lastPressed
      ensures s.pressed ==>
                lastPressed && lastPoint == s.point && out == Delivered(true, TransformPoint(coeff, s.point))
      ensures !s.pressed ==> !lastPressed && lastPoint == old(lastPoint)
      ensures !s.pressed ==>
                out == Delivered(false, if old(lastPressed) then TransformPoint(coeff, old(lastPoint))
                                        else Some(Point(0, 0)))
    {
      if s.pressed {
        lastPoint := s.point;
        lastPressed := s.pressed;
        return Delivered(s.pressed, TransformPoint(coeff, s.point));
      } else if !s.pressed && lastPressed {
        lastPressed := s.pressed;
        return Delivered(s.pressed, TransformPoint(coeff, lastPoint));
      }
      return Delivered(s.pressed, Some(Point(0, 0)));
    }
  }

  /** The fields of lv_tc_screen_t that are not LVGL widgets. */
  class CalibrationScreen {
    const driver: TouchDriver
    const display: Display
    const tapsPerPoint: int
    var inputEnabled: bool
    const scrPoints: array<Point>
    const tchPoints: array<Point>
    var currentStep: int
    var tapCount: int
    var tapAccum: Point

    /** The screen and the driver together, as one value. */
    ghost function State(): Machine
      reads this, driver, scrPoints, tchPoints
    {
      Machine(inputEnabled, scrPoints[..], tchPoints[..], currentStep, tapCount, tapAccum,
              driver.coeff, driver.lastPoint, driver.lastPressed)
    }

    ghost predicate Valid()
      reads this, driver, scrPoints, tchPoints
    {
      tapsPerPoint >= 1 && scrPoints != tchPoints && State().Valid(tapsPerPoint)
    }

    /** A new screen accepts input and shows the automatic crosshairs. */
    constructor (driver: TouchDriver, display: Display, tapsPerPoint: int)
      requires tapsPerPoint >= 1
      ensures Valid() && Fresh(State()) && State().inputEnabled
      ensures this.driver == driver && this.display == display && this.tapsPerPoint == tapsPerPoint
      ensures State().scr == AutoPoints(display.LogicalHor(), display.LogicalVer())
      ensures fresh(scrPoints) && fresh(tchPoints)
    {
      this.driver := driver;
      this.display := display;
      this.tapsPerPoint := tapsPerPoint;
      inputEnabled := true;
      currentStep := STEP_INIT;
      tapCount := 0;
      tapAccum := Point(0, 0);
      scrPoints := new Point[3](_ => Point(0, 0));
      tchPoints := new Point[3](_ => Point(0, 0));
      new;
      SetPoints(AutoPoints(display.LogicalHor(), display.LogicalVer()));
    }

    method SetPoints(ps: seq<Point>)
      requires Valid() && |ps| == 3
      modifies scrPoints
      ensures Valid() && State() == old(State()).(scr := ps)
    {
      scrPoints[0], scrPoints[1], scrPoints[2] := ps[0], ps[1], ps[2];
      assert scrPoints[..] == ps;
    }

    /** lv_tc_screen_start_with_config, up to creating the delay timer. */
    method StartCalibration()
      requires Valid()
      modifies this, driver, tchPoints
      ensures Valid() && State() == Handle(old(State()), Start, tapsPerPoint, display)
      ensures driver.saved == old(driver.saved)
    {
      Step(STEP_INIT, Point(0, 0));
    }

    /** The start-delay timer fires. */
    method OnDelayElapsed()
      requires Valid()
      modifies this, driver, tchPoints
      ensures Valid() && State() == Handle(old(State()), DelayElapsed, tapsPerPoint, display)
      ensures driver.saved == old(driver.saved)
    {
      Step(STEP_FIRST, Point(0, 0));
    }

    /** lv_tc_screen_step: entering STEP_FINISH solves for the coefficients and saves them. */
    method Step(step: int, tchPoint: Point)
      requires scrPoints.Length == 3 && tchPoints.Length == 3 && scrPoints != tchPoints
      requires STEP_INIT <= step <= STEP_FINISH
      modifies this, driver, tchPoints
      ensures State() == EnterStep(old(State()), step, tchPoint, display)
      ensures driver.saved == (if step == STEP_FINISH then Some(driver.coeff) else old(driver.saved))
    {
      hide ComputeCoeff;
      ghost var before := State();
      currentStep := step;
      tapCount := 0;
      tapAccum := Point(0, 0);
      if step > STEP_FIRST {
        tchPoints[step - 2] := tchPoint;
      }
      assert tchPoints[..] == EnterStep(before, step, tchPoint, display).tch;
      if step == STEP_FINISH {
        var evdevScrPoints := NativePoints();
        driver.Compute(evdevScrPoints, tchPoints);
        driver.saved := Some(driver.coeff);
      }
    }

    /** The crosshairs in the panel's own orientation. */
    method NativePoints() returns (points: array<Point>)
      requires scrPoints.Length == 3
      ensures fresh(points) && points.Length == 3 && points[..] == AllNative(display, scrPoints[..])
    {
      points := new Point[3](_ => Point(0, 0));
      for ci := 0 to 3
        invariant forall i :: 0 <= i < ci ==> points[i] == ToNative(display, scrPoints[i])
      {
        var lx, ly := scrPoints[ci].x, scrPoints[ci].y;
        if display.swRotate {
          match display.rotated {
            case Rot90 => points[ci] := Point(ly, display.ver - lx - 1);
            case Rot180 => points[ci] := Point(display.hor - lx - 1, display.ver - ly - 1);
            case Rot270 => points[ci] := Point(display.hor - ly - 1, lx);
            case Rot0 => points[ci] := scrPoints[ci];
          }
        } else {
          points[ci] := scrPoints[ci];
        }
      }
    }

    /** lv_tc_screen_process_input. */
    method ProcessInput(tchPoint: Point)
      requires Valid()
      modifies this, driver, tchPoints
      ensures Valid()
      ensures State() == (if STEP_INIT < old(currentStep) < STEP_FINISH
                          then CountTap(old(State()), tchPoint, tapsPerPoint, display) else old(State()))
    {
      if currentStep > STEP_INIT && currentStep < STEP_FINISH {
        inputEnabled := false;
        tapAccum := Point(tapAccum.x + tchPoint.x, tapAccum.y + tchPoint.y);
        tapCount := tapCount + 1;
        if tapCount >= tapsPerPoint {
          var avg := Point(TruncDiv(tapAccum.x, tapsPerPoint), TruncDiv(tapAccum.y, tapsPerPoint));
          Step(currentStep + 1, avg);
        }
      }
    }

    /** lv_tc_screen_input_cb. */
    method InputCb(s: Sample) returns (passed: bool)
      requires Valid()
      modifies this, driver, tchPoints
      ensures Valid() && (State(), passed) == OnInput(old(State()), s, tapsPerPoint, display)
    {
      hide CountTap;
      if inputEnabled && s.pressed {
        ProcessInput(s.point);
      }
      if !s.pressed {
        inputEnabled := true;
      }
      passed := currentStep >= STEP_FINISH;
    }

    /** lv_tc_indev_drv_read_cb with this screen registered; active: the screen is shown. */
    method ReadCb(raw: Sample, active: bool) returns (out: Delivered)
      requires Valid()
      modifies this, driver, tchPoints
      ensures Valid() && (State(), out) == OnRead(old(State()), raw, active, tapsPerPoint, display)
    {
      hide OnInput, TransformPoint;
      if active {
        var passed := InputCb(raw);
        if !passed {
          return Delivered(false, Some(Point(0, 0)));
        }
      }
      out := driver.TransformSample(raw);
    }
  }
}
