/**
  Hit-testing the radar chart (hitTestKompetence and the index-to-id step of
  onCanvasClick): a click in logical canvas coordinates selects the competency
  whose angular sector contains it, provided it is neither too close to the
  centre nor beyond the labels. Math.atan2 is not modelled: its result `theta`
  is an input. Distances are compared squared, so no square root is needed.
 */
module Radar {
  import opened SkillModel
  import opened Aggregation

  /** Math.PI, written as JavaScript prints it. */
  const Pi: real := 3.141592653589793
  const TwoPi: real := 2.0 * Pi

  /** The chart radius is this fraction of the shorter canvas side. */
  const RadiusFraction: real := 0.38
  /** Labels sit this far beyond the chart radius. */
  const LabelOffset: real := 28.0
  /** Clicks up to this far beyond the labels still count. */
  const OuterMargin: real := 40.0
  /** Clicks closer than this to the centre are ambiguous and ignored. */
  const DeadZone: real := 15.0

  function ChartRadius(width: real, height: real): real {
    (if width <= height then width else height) * RadiusFraction
  }

  /** The farthest a click may be from the centre. */
  function MaxDist(width: real, height: real): (m: real)
    requires width >= 0.0 && height >= 0.0
    ensures m >= LabelOffset + OuterMargin
  {
    ChartRadius(width, height) + LabelOffset + OuterMargin
  }

  /** The squared distance of (x, y) from the canvas centre. */
  function SquaredDistance(width: real, height: real, x: real, y: real): real {
    var dx, dy := x - width / 2.0, y - height / 2.0;
    dx * dx + dy * dy
  }

  /** The clicks that are neither in the dead zone nor beyond the outer margin. */
  predicate InAnnulus(width: real, height: real, x: real, y: real)
    requires width >= 0.0 && height >= 0.0
  {
    DeadZone * DeadZone <= SquaredDistance(width, height, x, y) <= MaxDist(width, height) * MaxDist(width, height)
  }

  /** The angular width of one competency's sector when there are n of them. */
  function SectorWidth(n: nat): (w: real)
    requires n > 0
    ensures w > 0.0 && w * n as real == TwoPi
  {
    TwoPi / n as real
  }

  /**
    `angle / (2 * PI / n)`: the angle measured in sector widths. Axis i, drawn
    2 * PI * i / n clockwise from straight up (angleForIndex plus a quarter
    turn), sits at position i, and a full turn is position n.
   */
  function SectorPosition(angle: real, n: nat): (p: real)
    requires n > 0
    ensures 0.0 <= angle < TwoPi ==> 0.0 <= p < n as real
  {
    var w, p := SectorWidth(n), angle / SectorWidth(n);
    assert w * p == angle;
    ScaleOrder(w, p, n as real);
    ScaleOrder(w, 0.0, p);
    p
  }

  /** angleForIndex: axis i is drawn at this angle, measured clockwise from the positive x-axis. */
  function AngleForIndex(i: nat, n: nat): real
    requires n > 0
  {
    TwoPi * i as real / n as real - Pi / 2.0
  }

  /**
    Axis i, turned by the quarter turn that hitTestKompetence adds so that
    angles start straight up, lies at position i: it is where floor sector i
    starts and where centred sector i is centred.
   */
  lemma AxisAtPosition(i: nat, n: nat)
    requires 0 < n && i < n
    ensures SectorPosition(AngleForIndex(i, n) + Pi / 2.0, n) == i as real
    ensures InSector(AngleForIndex(i, n) + Pi / 2.0, i, n)
    ensures InCenteredSector(AngleForIndex(i, n) + Pi / 2.0, i, n)
  {
    var w, a := SectorWidth(n), AngleForIndex(i, n) + Pi / 2.0;
    assert a == w * i as real;
  }

  /** Sector i, as hitTestKompetence assigns it: from axis i up to axis i + 1. */
  predicate InSector(angle: real, i: nat, n: nat)
    requires n > 0
  {
    i as real <= SectorPosition(angle, n) < i as real + 1.0
  }

  /**
    `(theta + PI / 2 + 2 * PI) % (2 * PI)` for an atan2 result theta in [-PI, PI]:
    the click's angle clockwise from straight up, in [0, 2 * PI). The operand of
    % is positive, so JavaScript's truncating remainder is the floor remainder.
   */
  function NormalizedAngle(theta: real): (a: real)
    requires -Pi <= theta <= Pi
    ensures 0.0 <= a < TwoPi
    ensures theta >= -Pi / 2.0 ==> a == theta + Pi / 2.0
    ensures theta < -Pi / 2.0 ==> a == theta + Pi / 2.0 + TwoPi
  {
    var s := theta + Pi / 2.0 + TwoPi;
    var k := (s / TwoPi).Floor;
    assert theta >= -Pi / 2.0 ==> 1.0 <= s / TwoPi < 2.0;
    assert theta < -Pi / 2.0 ==> 0.0 <= s / TwoPi < 1.0;
    s - TwoPi * k as real
  }

  /**
    `Math.floor(angle / (2 * PI / n)) % n`: the sector that contains the angle.
    Each sector starts at its own axis and runs clockwise to the next one.
   */
  function SectorIndex(angle: real, n: nat): (i: nat)
    requires n > 0 && 0.0 <= angle < TwoPi
    ensures i < n
    ensures InSector(angle, i, n)
  {
    var k := SectorPosition(angle, n).Floor;
    assert 0 <= k < n;
    assert k % n == k;
    k % n
  }

  /** Sectors do not overlap: an angle lies in one sector only. */
  lemma SectorsDisjoint(angle: real, i: nat, j: nat, n: nat)
    requires n > 0 && InSector(angle, i, n) && InSector(angle, j, n)
    ensures i == j
  {
  }

  /**
    hitTestKompetence: no competency when there are none, or when the click is
    closer than 15 to the centre or farther than radius + 28 + 40; otherwise the
    index of the sector that contains the click's angle.
   */
  function HitTest(n: nat, width: real, height: real, x: real, y: real, theta: real): (r: Option<nat>)
    requires width >= 0.0 && height >= 0.0 && -Pi <= theta <= Pi
    ensures r.Some? <==> n > 0 && InAnnulus(width, height, x, y)
    ensures r.Some? ==> r.value < n && InSector(NormalizedAngle(theta), r.value, n)
  {
    if n == 0 then None
    else
      var d2, maxDist := SquaredDistance(width, height, x, y), MaxDist(width, height);
      if d2 > maxDist * maxDist || d2 < DeadZone * DeadZone then None
      else Some(SectorIndex(NormalizedAngle(theta), n))
  }

  /** Every angle in the annulus selects exactly the sector that contains it. */
  lemma HitTestSelectsContainingSector(n: nat, width: real, height: real, x: real, y: real, theta: real, i: nat)
    requires width >= 0.0 && height >= 0.0 && -Pi <= theta <= Pi
    requires n > 0 && i < n && InAnnulus(width, height, x, y) && InSector(NormalizedAngle(theta), i, n)
    ensures HitTest(n, width, height, x, y, theta) == Some(i)
  {
    SectorsDisjoint(NormalizedAngle(theta), i, HitTest(n, width, height, x, y, theta).value, n);
  }

  /**
    The source compares Math.sqrt(dx * dx + dy * dy) with 15 and with the outer
    bound; for any non-negative root of the squared distance that is the same
    test as the squared comparison made here.
   */
  lemma SquaredComparisonIsDistanceComparison(width: real, height: real, x: real, y: real, dist: real)
    requires width >= 0.0 && height >= 0.0
    requires dist >= 0.0 && dist * dist == SquaredDistance(width, height, x, y)
    ensures InAnnulus(width, height, x, y) <==> !(dist > MaxDist(width, height) || dist < DeadZone)
  {
    SquareOrder(MaxDist(width, height), dist);
    SquareOrder(dist, DeadZone);
  }

  /** Between non-negative reals, squaring keeps strict order, both ways. */
  lemma SquareOrder(a: real, b: real)
    requires a >= 0.0 && b >= 0.0
    ensures a < b <==> a * a < b * b
  {
    if a < b {
      ProductOrder(a, b, a, b);
    } else {
      ProductOrder(b, a, b, a);
    }
  }

  /**
    onCanvasClick's index-to-id step, as written: the id of the level at the
    index hitTestKompetence returns, or none when it found nothing.
   */
  function ClickedCompetencyAsWritten(levels: seq<Level>, width: real, height: real, x: real, y: real, theta: real): (r: Option<nat>)
    requires width >= 0.0 && height >= 0.0 && -Pi <= theta <= Pi
    ensures r.Some? <==> |levels| > 0 && InAnnulus(width, height, x, y)
    ensures r.Some? ==> exists i :: 0 <= i < |levels| && levels[i].id == r.value
                                  && InSector(NormalizedAngle(theta), i, |levels|)
  {
    match HitTest(|levels|, width, height, x, y, theta)
    case None => None
    case Some(i) => Some(levels[i].id)
  }

  // ---------------------------------------------------------------------------
  // The sector boundaries as written versus sectors centred on their axes

  /**
    How far position p is from axis i going the shorter way round, in sector
    widths: the angle between a click and an axis, divided by 2 * PI / n.
   */
  function SectorGap(p: real, i: nat, n: nat): (g: real)
    requires 0.0 <= p < n as real && i < n
    ensures 0.0 <= g <= n as real / 2.0
  {
    var d := if p >= i as real then p - i as real else i as real - p;
    if d <= n as real - d then d else n as real - d
  }

  /**
    A click on the upper-left diagonal of a 400 x 400 canvas with three
    competencies (atan2 gives exactly -3 * PI / 4 there) selects the third
    competency, whose axis is 5/8 of a sector (75 degrees) away, although the
    first competency's axis is only 3/8 of a sector (45 degrees) away.
   */
  lemma DiagonalClickSelectsFartherAxis()
    ensures HitTest(3, 400.0, 400.0, 100.0, 100.0, -3.0 * Pi / 4.0) == Some(2)
    ensures SectorGap(SectorPosition(NormalizedAngle(-3.0 * Pi / 4.0), 3), 2, 3) > 0.5
    ensures SectorGap(SectorPosition(NormalizedAngle(-3.0 * Pi / 4.0), 3), 0, 3)
            < SectorGap(SectorPosition(NormalizedAngle(-3.0 * Pi / 4.0), 3), 2, 3)
  {
    var a := NormalizedAngle(-3.0 * Pi / 4.0);
    assert a == 7.0 * Pi / 4.0;
    assert SectorPosition(a, 3) == 2.625;
    assert InAnnulus(400.0, 400.0, 100.0, 100.0);
    HitTestSelectsContainingSector(3, 400.0, 400.0, 100.0, 100.0, -3.0 * Pi / 4.0, 2);
  }

  /**
    The sector centred on axis i: within half a sector of the axis, where the
    first axis's sector also takes the angles just short of a full turn.
   */
  predicate InCenteredSector(angle: real, i: nat, n: nat)
    requires n > 0
  {
    var p := SectorPosition(angle, n);
    || i as real - 0.5 <= p < i as real + 0.5
    || (i == 0 && n as real - 0.5 <= p)
  }

  /**
    The evidently intended sector index: each competency owns the sector
    centred on its axis, `Math.floor(angle / w + 1/2) % n` for sector width w,
    so the selected axis is never more than half a sector from the click.
   */
  function CenteredSectorIndex(angle: real, n: nat): (i: nat)
    requires n > 0 && 0.0 <= angle < TwoPi
    ensures i < n
    ensures InCenteredSector(angle, i, n)
    ensures SectorGap(SectorPosition(angle, n), i, n) <= 0.5
  {
    var k := (SectorPosition(angle, n) + 0.5).Floor;
    assert 0 <= k <= n;
    if k < n then
      assert k % n == k;
      k % n
    else
      assert k % n == 0;
      k % n
  }

  /** Centred sectors select the axis whose centred sector holds the angle. */
  lemma CenteredSectorSelects(angle: real, n: nat, i: nat)
    requires n > 0 && 0.0 <= angle < TwoPi && i < n && InCenteredSector(angle, i, n)
    ensures CenteredSectorIndex(angle, n) == i
  {
    var p := SectorPosition(angle, n);
    if i as real - 0.5 <= p < i as real + 0.5 {
      assert (p + 0.5).Floor == i;
      assert i % n == i;
    } else {
      assert (p + 0.5).Floor == n;
      assert n % n == 0;
    }
  }

  /** hitTestKompetence with sectors centred on their axes. */
  function CenteredHitTest(n: nat, width: real, height: real, x: real, y: real, theta: real): (r: Option<nat>)
    requires width >= 0.0 && height >= 0.0 && -Pi <= theta <= Pi
    ensures r.Some? <==> n > 0 && InAnnulus(width, height, x, y)
    ensures r.Some? ==> r.value < n && InCenteredSector(NormalizedAngle(theta), r.value, n)
    ensures r.Some? ==> SectorGap(SectorPosition(NormalizedAngle(theta), n), r.value, n) <= 0.5
  {
    if n == 0 then None
    else
      var d2, maxDist := SquaredDistance(width, height, x, y), MaxDist(width, height);
      if d2 > maxDist * maxDist || d2 < DeadZone * DeadZone then None
      else Some(CenteredSectorIndex(NormalizedAngle(theta), n))
  }

  /** On the diagonal click above, centred sectors select the first competency. */
  lemma DiagonalClickCentered()
    ensures CenteredHitTest(3, 400.0, 400.0, 100.0, 100.0, -3.0 * Pi / 4.0) == Some(0)
  {
    var a := NormalizedAngle(-3.0 * Pi / 4.0);
    assert a == 7.0 * Pi / 4.0;
    assert SectorPosition(a, 3) == 2.625;
    assert InAnnulus(400.0, 400.0, 100.0, 100.0);
    CenteredHitTestSelectsNearestAxis(3, 400.0, 400.0, 100.0, 100.0, -3.0 * Pi / 4.0, 0);
  }

  /** Every click in the ring selects the axis whose centred sector holds its angle. */
  lemma CenteredHitTestSelectsNearestAxis(n: nat, width: real, height: real, x: real, y: real, theta: real, i: nat)
    requires width >= 0.0 && height >= 0.0 && -Pi <= theta <= Pi
    requires i < n && InAnnulus(width, height, x, y) && InCenteredSector(NormalizedAngle(theta), i, n)
    ensures CenteredHitTest(n, width, height, x, y, theta) == Some(i)
  {
    CenteredSectorSelects(NormalizedAngle(theta), n, i);
  }

  /**
    onCanvasClick's index-to-id step, on the corrected hit test: the id of the
    level at the hit index, or none when the hit test found nothing.
   */
  function ClickedCompetency(levels: seq<Level>, width: real, height: real, x: real, y: real, theta: real): (r: Option<nat>)
    requires width >= 0.0 && height >= 0.0 && -Pi <= theta <= Pi
    ensures r.Some? <==> |levels| > 0 && InAnnulus(width, height, x, y)
    ensures r.Some? ==> exists i :: 0 <= i < |levels| && levels[i].id == r.value
                                  && InCenteredSector(NormalizedAngle(theta), i, |levels|)
  {
    match CenteredHitTest(|levels|, width, height, x, y, theta)
    case None => None
    case Some(i) => Some(levels[i].id)
  }

  /**
    With one competency on a 400 x 400 canvas: a click on the centre selects
    nothing; a click straight above it at the label distance (152 + 28, where
    atan2 gives -PI / 2) selects the competency, as written and corrected.
   */
  lemma SingleCompetencyClicks()
    ensures ClickedCompetencyAsWritten([Level(1, "Reception", 60)], 400.0, 400.0, 200.0, 200.0, 0.0) == None
    ensures ClickedCompetencyAsWritten([Level(1, "Reception", 60)], 400.0, 400.0, 200.0, 20.0, -Pi / 2.0) == Some(1)
    ensures ClickedCompetency([Level(1, "Reception", 60)], 400.0, 400.0, 200.0, 200.0, 0.0) == None
    ensures ClickedCompetency([Level(1, "Reception", 60)], 400.0, 400.0, 200.0, 20.0, -Pi / 2.0) == Some(1)
  {
    assert !InAnnulus(400.0, 400.0, 200.0, 200.0);
    assert InAnnulus(400.0, 400.0, 200.0, 20.0);
    assert NormalizedAngle(-Pi / 2.0) == 0.0;
  }
}
