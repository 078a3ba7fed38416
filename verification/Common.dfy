/** Values the other modules share. */
module Common {

  datatype Option<+T> = None | Some(value: T)

  /** What a source function returns, or that it throws. */
  datatype Result<+T> = Ok(value: T) | Err

  /** The largest whole number a JavaScript number holds along with all below it. */
  const MAX_SAFE_INTEGER: int := 9_007_199_254_740_991

  predicate IsSafeInteger(n: int) { -MAX_SAFE_INTEGER <= n <= MAX_SAFE_INTEGER }

  function Max(a: real, b: real): real { if a >= b then a else b }

  function Min(a: real, b: real): real { if a <= b then a else b }
}
