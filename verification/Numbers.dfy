/** Exact-real versions of the JavaScript number helpers the modules below share. */
module Numbers {

  datatype Option<+T> = None | Some(value: T)

  function OrZero(o: Option<real>): real {
    match o
    case Some(v) => v
    case None => 0.0
  }

  function Abs(x: real): (r: real) {
    if x < 0.0 then -x else x
  }

  function Min(x: real, y: real): real {
    if x <= y then x else y
  }

  function Max(x: real, y: real): real {
    if x <= y then y else x
  }

  function Clamp(v: real, lo: real, hi: real): real {
    Min(hi, Max(lo, v))
  }

  function Sign(x: real): int {
    if x > 0.0 then 1 else if x < 0.0 then -1 else 0
  }

  /** `Math.round`: the nearest integer, halves going up. */
  function Round(x: real): int {
    (x + 0.5).Floor
  }

  /** `Math.round(x * 100) / 100`. */
  function RoundToHundredth(x: real): real {
    Round(x * 100.0) as real / 100.0
  }

  lemma RoundIsMonotone(x: real, y: real)
    requires x <= y
    ensures Round(x) <= Round(y)
  {
  }

  lemma RoundToHundredthIsMonotone(x: real, y: real)
    requires x <= y
    ensures RoundToHundredth(x) <= RoundToHundredth(y)
  {
    RoundIsMonotone(x * 100.0, y * 100.0);
  }
}
