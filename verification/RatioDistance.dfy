/** Nearest centre in ratio: the reason why geometric means of neighbouring averages are the right thresholds. */
module RatioDistance {
  import opened RealFacts

  /**
   * For a weight w > 0 and centres a, b >= 0, whether a is at least as near to w as b is, where the distance of
   * a centre is the larger of w / a and a / w. Cross-multiplied, so that a centre at 0 is infinitely far away.
   */
  predicate AsNear(w: real, a: real, b: real) {
    Larger(w * w, a * a) * b <= Larger(w * w, b * b) * a
  }

  ghost predicate Increasing(centres: seq<real>) {
    forall i, j :: 0 <= i < j < |centres| ==> centres[i] < centres[j]
  }

  /** Between two centres the geometric mean decides. */
  lemma MeanDecides(w: real, a: real, b: real)
    requires w > 0.0 && 0.0 <= a < b
    ensures AsNear(w, a, b) <==> w * w <= a * b
    ensures AsNear(w, b, a) <==> w * w >= a * b
  {
    RootOrder(w, a);
    RootOrder(w, b);
    RootOrder(a, w);
    RootOrder(b, w);
    if w <= a {
      // Both centres are above the weight: the smaller one is nearer.
      BothAbove(w, a, b);
    } else if w >= b {
      BothBelow(w, a, b);
    } else {
      StrictlyMonotone(b, a * b, w * w);
      StrictlyMonotone(b, w * w, a * b);
      assert Larger(w * w, a * a) == w * w && Larger(w * w, b * b) == b * b;
      assert b * b * a == b * (a * b);
      assert w * w * b == b * (w * w);
    }
  }

  lemma BothAbove(w: real, a: real, b: real)
    requires 0.0 < w <= a < b && w * w <= a * a && w * w <= b * b
    ensures AsNear(w, a, b) && w * w <= a * b && (AsNear(w, b, a) <==> w * w >= a * b)
  {
    Monotone(a, a, b);
    assert a * b > 0.0 && a * a < a * b by {
      StrictlyMonotone(a, a, b);
    }
    StrictlyMonotone(a * b, a, b);
    assert a * a * b == a * b * a && b * b * a == a * b * b;
  }

  lemma BothBelow(w: real, a: real, b: real)
    requires 0.0 <= a < b <= w && a * a <= w * w && b * b <= w * w
    ensures AsNear(w, b, a) && w * w >= a * b && (AsNear(w, a, b) <==> w * w <= a * b)
  {
    BelowSquare(w * w, a, b);
  }

  lemma BelowSquare(square: real, a: real, b: real)
    requires 0.0 <= a < b && b * b <= square
    ensures square > a * b && square * a < square * b
  {
    StrictlyMonotone(b, a, b);
    Product(a, b);
    assert square >= b * b > b * a == a * b >= 0.0;
    StrictlyMonotone(square, a, b);
  }

  lemma FarBelow(w: real, far: real, below: real, here: real)
    requires w > 0.0 && 0.0 <= far <= below < here && !AsNear(w, below, here)
    ensures AsNear(w, here, far) && !AsNear(w, far, here)
  {
    MeanDecides(w, below, here);
    Monotone(here, far, below);
    assert w * w > far * here;
    MeanDecides(w, far, here);
  }

  lemma FarAbove(w: real, here: real, above: real, far: real)
    requires w > 0.0 && 0.0 <= here < above <= far && AsNear(w, here, above)
    ensures AsNear(w, here, far)
  {
    MeanDecides(w, here, above);
    Monotone(here, above, far);
    assert w * w <= here * far;
    MeanDecides(w, here, far);
  }

  lemma AsNearAsItself(w: real, a: real)
    ensures AsNear(w, a, a)
  {
  }

  lemma BeatsEarlier(w: real, centres: seq<real>, i: nat, j: nat)
    requires w > 0.0 && j < i < |centres| && Increasing(centres) && centres[0] >= 0.0
    requires !AsNear(w, centres[i - 1], centres[i])
    ensures AsNear(w, centres[i], centres[j]) && !AsNear(w, centres[j], centres[i])
  {
    assert centres[0] <= centres[j] <= centres[i - 1] < centres[i];
    FarBelow(w, centres[j], centres[i - 1], centres[i]);
  }

  lemma BeatsLater(w: real, centres: seq<real>, i: nat, j: nat)
    requires w > 0.0 && i < j < |centres| && Increasing(centres) && centres[0] >= 0.0
    requires AsNear(w, centres[i], centres[i + 1])
    ensures AsNear(w, centres[i], centres[j])
  {
    assert centres[0] <= centres[i] < centres[i + 1] <= centres[j];
    FarAbove(w, centres[i], centres[i + 1], centres[j]);
  }

  /** A centre that beats its neighbours beats every other centre, and strictly beats every earlier one. */
  lemma NearestOfAll(w: real, centres: seq<real>, i: nat, j: nat)
    requires w > 0.0 && i < |centres| && j < |centres| && Increasing(centres) && centres[0] >= 0.0
    requires i > 0 ==> !AsNear(w, centres[i - 1], centres[i])
    requires i + 1 < |centres| ==> AsNear(w, centres[i], centres[i + 1])
    ensures AsNear(w, centres[i], centres[j])
    ensures j < i ==> !AsNear(w, centres[j], centres[i])
  {
    if j < i {
      BeatsEarlier(w, centres, i, j);
    } else if i < j {
      BeatsLater(w, centres, i, j);
    } else {
      AsNearAsItself(w, centres[i]);
    }
  }
}
