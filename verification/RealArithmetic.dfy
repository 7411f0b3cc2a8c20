/** Single steps of nonlinear arithmetic over the reals, each a lemma of its own so that a caller reasons linearly. */
module RealArithmetic {
  lemma Same(a: real, b: real, c: real)
    requires b == c
    ensures a * b == a * c
  {
  }

  lemma Scaled(a: real, k: real)
    requires a > 0.0 && k > 0.0
    ensures a * k > 0.0
  {
  }

  lemma ScaleLess(a: real, b: real, k: real)
    requires k > 0.0
    ensures a < b <==> a * k < b * k
  {
  }

  lemma Times(a: real, b: real, p: real)
    requires a <= b && p >= 0.0
    ensures a * p <= b * p
  {
  }

  lemma EqualBy(a: real, b: real, k: real)
    requires k > 0.0 && a * k == b * k
    ensures a == b
  {
    ScaleLess(a, b, k);
    ScaleLess(b, a, k);
  }

  lemma PerUnit(initial: real, a: real, b: real)
    requires initial > 0.0 && a * initial == b < initial
    ensures a < 1.0
  {
    ScaleLess(a, 1.0, initial);
  }

  lemma Between(share: real, most: real, k: real, x: real)
    requires k > 0.0 && share * k == x && 0.0 <= x <= most * k
    ensures 0.0 <= share <= most
  {
    ScaleLess(share, 0.0, k);
    ScaleLess(most, share, k);
  }

  lemma Under(a: real, b: real, w: real, c: real)
    requires w > 0.0 && a * w < c && c <= b * w
    ensures a < b
  {
    ScaleLess(a, b, w);
  }

  lemma UnderInverse(a: real, w: real, c: real)
    requires w > 0.0 && a * w < c && c <= 1.0
    ensures a < 1.0 / w
  {
    var inverse := 1.0 / w;
    assert inverse * w == 1.0;
    Under(a, inverse, w, c);
  }
}
