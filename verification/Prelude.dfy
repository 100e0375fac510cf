/** Small types the other modules share. */
module Prelude {
  datatype Option<+X> = None | Some(value: X)

  datatype Pair<X> = Pair(first: X, second: X) {
    function At(i: nat): X { if i == 0 then first else second }
    function With(i: nat, x: X): Pair<X> { if i == 0 then Pair(x, second) else Pair(first, x) }
  }
}
