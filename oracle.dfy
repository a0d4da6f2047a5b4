/** The engine's random draws. Each is an unknown value: the model proves its
    results for every value the draw may take, never for a distribution. */
module Oracle {

  /** random_unit(): a draw from [0, 1]. */
  method RandomUnit() returns (u: real)
    ensures 0.0 <= u <= 1.0
  {
    u :| 0.0 <= u <= 1.0;
  }

  /** coin_flip(): either outcome. */
  method CoinFlip() returns (b: bool)
  {
    b :| true;
  }

  /** `r` lies between the two bounds, in whichever order they come. */
  predicate Between(lo: real, hi: real, r: real)
  {
    (lo <= hi ==> lo <= r <= hi) && (hi < lo ==> hi <= r <= lo)
  }

  /** random_from_range(lo, hi): a draw between the two bounds. */
  method RandomFromRange(lo: real, hi: real) returns (r: real)
    ensures Between(lo, hi, r)
  {
    assert Between(lo, hi, lo);
    r :| Between(lo, hi, r);
  }

  /** random_normal(mean, deviation): any real at all. */
  method RandomNormal(mean: real, deviation: real) returns (r: real)
  {
    r :| true;
  }
}
