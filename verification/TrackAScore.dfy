/** The Track A score of harness/scoring.py over exact reals: a capped geometric mean of
    reference-to-design ratios. */
module TrackAScore {
  import opened Wrappers

  const PPA_CAP: real := 1.5

  /** `PpaMetrics`: built only from quantities greater than zero. */
  datatype Metrics = Metrics(area: real, delay: real, power: real, clock: real)

  predicate Physical(m: Metrics) {
    m.area > 0.0 && m.delay > 0.0 && m.power > 0.0 && m.clock > 0.0
  }

  /** The constructor's check; None where it raises. */
  function Checked(m: Metrics): Option<Metrics> {
    if Physical(m) then Some(m) else None
  }

  /** `delay_from_wns`. */
  function DelayFromWns(clock: real, wns: real): Option<real> {
    if clock > 0.0 && clock - wns > 0.0 then Some(clock - wns) else None
  }

  /** `x ** (1/3)` on positive arguments: the positive number whose cube is x. */
  ghost predicate CubeRoots(root: real -> real) {
    forall x: real :: x > 0.0 ==> root(x) > 0.0 && root(x) * root(x) * root(x) == x
  }

  function Ratio(x: real, y: real): real
    requires y > 0.0
  {
    x / y
  }

  function Times(x: real, y: real, z: real): real {
    x * y * z
  }

  /** `math.prod` of the three ratios. */
  function Product(reference: Metrics, measured: Metrics): real
    requires Physical(reference) && Physical(measured)
  {
    Times(Ratio(reference.area, measured.area), Ratio(reference.delay, measured.delay),
          Ratio(reference.power, measured.power))
  }

  /** `ppa_from_metrics`. */
  function Ppa(root: real -> real, reference: Metrics, measured: Metrics): real
    requires Physical(reference) && Physical(measured)
  {
    root(Product(reference, measured))
  }

  /** `task_score_from_ppa`; None where it raises. */
  function TaskScore(ppa: real): Option<real> {
    if ppa < 0.0 then None else Some(100.0 * (if ppa < PPA_CAP then ppa else PPA_CAP) / PPA_CAP)
  }

  // ----- Products and cubes -----

  lemma TimesLess(a: real, b: real, c: real, d: real)
    requires 0.0 < a <= b && 0.0 < c <= d
    ensures 0.0 < a * c <= b * d
    ensures a < b || c < d ==> a * c < b * d
  {
    assert a * c <= a * d <= b * d;
    if a < b {
      assert a * d < b * d;
    }
    if c < d {
      assert a * c < a * d;
    }
  }

  lemma ThreeLess(x1: real, x2: real, y1: real, y2: real, z1: real, z2: real)
    requires 0.0 < x1 <= x2 && 0.0 < y1 <= y2 && 0.0 < z1 <= z2
    ensures 0.0 < Times(x1, y1, z1) <= Times(x2, y2, z2)
    ensures x1 < x2 || y1 < y2 || z1 < z2 ==> Times(x1, y1, z1) < Times(x2, y2, z2)
  {
    var u1, u2 := x1 * y1, x2 * y2;
    TimesLess(x1, x2, y1, y2);
    TimesLess(u1, u2, z1, z2);
  }

  /** Cubing is strictly increasing on the positive reals. */
  lemma CubesOrder(p: real, q: real)
    requires p > 0.0 && q > 0.0
    ensures p < q <==> p * p * p < q * q * q
    ensures p == q <==> p * p * p == q * q * q
  {
    if p < q {
      ThreeLess(p, q, p, q, p, q);
    } else if q < p {
      ThreeLess(q, p, q, p, q, p);
    }
  }

  lemma Divides(x: real, y: real, z: real)
    requires x > 0.0 && 0.0 < y <= z
    ensures 0.0 < Ratio(x, z) <= Ratio(x, y)
    ensures y < z ==> Ratio(x, z) < Ratio(x, y)
  {
    var u, v := x / y, x / z;
    assert u * y == x && v * z == x;
    assert u > 0.0 && v > 0.0;
    if v > u {
      TimesLess(y, z, u, v);
    }
    if y < z && v == u {
      TimesLess(y, z, u, u);
    }
  }

  lemma SelfRatio(x: real)
    requires x > 0.0
    ensures Ratio(x, x) == 1.0
  {
    assert x / x == 1.0;
  }

  lemma ProductPositive(reference: Metrics, measured: Metrics)
    requires Physical(reference) && Physical(measured)
    ensures Product(reference, measured) > 0.0
  {
    hide Ratio, Times;
    Divides(reference.area, measured.area, measured.area);
    Divides(reference.delay, measured.delay, measured.delay);
    Divides(reference.power, measured.power, measured.power);
    var a, d, p := Ratio(reference.area, measured.area), Ratio(reference.delay, measured.delay),
        Ratio(reference.power, measured.power);
    ThreeLess(a, a, d, d, p, p);
  }

  /** The score is the unique positive cube root of the product of ratios. */
  lemma PpaIsTheCubeRoot(root: real -> real, reference: Metrics, measured: Metrics, p: real)
    requires CubeRoots(root) && Physical(reference) && Physical(measured)
    ensures (p > 0.0 && p * p * p == Product(reference, measured)) <==> p == Ppa(root, reference, measured)
  {
    ProductPositive(reference, measured);
    var q := Ppa(root, reference, measured);
    assert q > 0.0 && q * q * q == Product(reference, measured);
    if p > 0.0 {
      CubesOrder(p, q);
    }
  }

  // ----- Order -----

  /** No metric of b is worse than a's. */
  predicate NoWorse(a: Metrics, b: Metrics) {
    b.area <= a.area && b.delay <= a.delay && b.power <= a.power
  }

  predicate SomeBetter(a: Metrics, b: Metrics) {
    b.area < a.area || b.delay < a.delay || b.power < a.power
  }

  lemma ProductOrder(reference: Metrics, a: Metrics, b: Metrics)
    requires Physical(reference) && Physical(a) && Physical(b) && NoWorse(a, b)
    ensures 0.0 < Product(reference, a) <= Product(reference, b)
    ensures SomeBetter(a, b) ==> Product(reference, a) < Product(reference, b)
  {
    hide Ratio, Times;
    Divides(reference.area, b.area, a.area);
    Divides(reference.delay, b.delay, a.delay);
    Divides(reference.power, b.power, a.power);
    var x1, x2 := Ratio(reference.area, a.area), Ratio(reference.area, b.area);
    var y1, y2 := Ratio(reference.delay, a.delay), Ratio(reference.delay, b.delay);
    var z1, z2 := Ratio(reference.power, a.power), Ratio(reference.power, b.power);
    ThreeLess(x1, x2, y1, y2, z1, z2);
  }

  /** Improving one metric and worsening none raises the PPA figure strictly. */
  lemma ImprovementRaises(root: real -> real, reference: Metrics, a: Metrics, b: Metrics)
    requires CubeRoots(root) && Physical(reference) && Physical(a) && Physical(b) && NoWorse(a, b)
    ensures Ppa(root, reference, a) <= Ppa(root, reference, b)
    ensures SomeBetter(a, b) ==> Ppa(root, reference, a) < Ppa(root, reference, b)
  {
    hide Product;
    ProductOrder(reference, a, b);
    CubesOrder(Ppa(root, reference, a), Ppa(root, reference, b));
  }

  /** The reference design itself has figure 1 and score 100 / 1.5. */
  lemma ReferenceScores(root: real -> real, reference: Metrics)
    requires CubeRoots(root) && Physical(reference)
    ensures Ppa(root, reference, reference) == 1.0
    ensures TaskScore(Ppa(root, reference, reference)) == Some(100.0 / 1.5)
  {
    SelfRatio(reference.area);
    SelfRatio(reference.delay);
    SelfRatio(reference.power);
    assert Product(reference, reference) == 1.0;
    PpaIsTheCubeRoot(root, reference, reference, 1.0);
  }

  /** The score grows with the figure, strictly below the cap, and stays within 0 and 100. */
  lemma ScoreOrder(p: real, q: real)
    requires 0.0 <= p <= q
    ensures 0.0 <= TaskScore(p).value <= TaskScore(q).value <= 100.0
    ensures p < q && p < PPA_CAP ==> TaskScore(p).value < TaskScore(q).value
  {
  }

  /** A design gets the full 100 exactly when its product of ratios reaches 27/8. */
  lemma FullScoreIff(root: real -> real, reference: Metrics, measured: Metrics)
    requires CubeRoots(root) && Physical(reference) && Physical(measured)
    ensures TaskScore(Ppa(root, reference, measured)) == Some(100.0) <==> Product(reference, measured) >= 27.0 / 8.0
  {
    ProductPositive(reference, measured);
    var p := Ppa(root, reference, measured);
    assert p > 0.0 && p * p * p == Product(reference, measured);
    CubesOrder(p, PPA_CAP);
    assert PPA_CAP * PPA_CAP * PPA_CAP == 27.0 / 8.0;
    if p < PPA_CAP {
      ScoreOrder(p, PPA_CAP);
    }
  }

  /** Two clocks give the same figure only when they are the same. */
  lemma DelayDetermined(root: real -> real, reference: Metrics, a: Metrics, b: Metrics)
    requires CubeRoots(root) && Physical(reference) && Physical(a) && Physical(b)
    requires a.area == b.area && a.power == b.power
    ensures Ppa(root, reference, a) == Ppa(root, reference, b) <==> a.delay == b.delay
  {
    if a.delay < b.delay {
      ImprovementRaises(root, reference, b, a);
    } else if b.delay < a.delay {
      ImprovementRaises(root, reference, a, b);
    }
  }
}
