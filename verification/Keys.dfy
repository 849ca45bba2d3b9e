/** The four movement keys, the two axes and the tables that relate them. */
module Keys {

  /** Movement keys in the order of the source's `Key` enumeration: W, S, A, D. */
  type Key = k: int | 0 <= k < 4

  const W: Key := 0
  const S: Key := 1
  const A: Key := 2
  const D: Key := 3

  /** X (A and D) is 0, Y (W and S) is 1. */
  type Axis = a: int | 0 <= a < 2

  const X: Axis := 0
  const Y: Axis := 1

  function Opposite(k: Key): Key {
    if k == W then S else if k == S then W else if k == A then D else A
  }

  function KeyAxis(k: Key): Axis {
    if k == W || k == S then Y else X
  }

  /** The two keys of an axis: D and W are positive, A and S negative. */
  datatype Side = Pos | Neg

  function Flip(side: Side): Side {
    if side == Pos then Neg else Pos
  }

  function KeyOf(a: Axis, side: Side): Key {
    if a == X then (if side == Pos then D else A) else (if side == Pos then W else S)
  }

  function SideOf(k: Key): (side: Side)
    ensures KeyOf(KeyAxis(k), side) == k && KeyOf(KeyAxis(k), Flip(side)) == Opposite(k)
  {
    if k == D || k == W then Pos else Neg
  }

  function OtherAxis(a: Axis): Axis {
    1 - a
  }

  type Bools4 = s: seq<bool> | |s| == 4 witness [false, false, false, false]

  const NO_KEYS: Bools4 := [false, false, false, false]
}
