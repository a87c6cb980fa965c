/** Small vocabulary shared by every module of the model. */
module Prelude {

  datatype Option<+T> = None | Some(value: T)

  /** A value, or the contract error the source raises instead of returning one. */
  datatype Result<+T> = Ok(value: T) | Err(reason: string)

  /** Text by its code points, so that unpaired surrogates have a place. */
  type Text = seq<int>

  predicate Ascending(s: seq<int>) { forall i, j :: 0 <= i < j < |s| ==> s[i] < s[j] }

  function Min(a: int, b: int): int { if a <= b then a else b }

  function Max(a: int, b: int): int { if a <= b then b else a }

  function RMin(a: real, b: real): real { if a <= b then a else b }

  function RMax(a: real, b: real): real { if a <= b then b else a }

  function Square(a: real): real { a * a }

  function RAbs(a: real): real { if a < 0.0 then -a else a }

  function Clamp(x: real, lo: real, hi: real): real { RMin(RMax(x, lo), hi) }
}
