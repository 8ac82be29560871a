/** JavaScript value conventions shared by every module: nullable values,
    numbers as reals, Math.round, Math.floor, Math.ceil and the `||`
    fallback that treats 0 (and NaN) as missing. */
module Js {

  datatype Option<T> = None | Some(value: T) {
    /** `x ?? d` */
    function GetOr(d: T): T {
      if Some? then value else d
    }
  }

  /** A JavaScript number as a validator receives it: null or undefined,
      NaN, plus or minus Infinity, or a finite value. */
  datatype Num = Absent | NaN | Infinity | Finite(value: real)

  /** A nullable number as it comes out of a database column. */
  function FromNullable(n: Option<real>): (r: Num)
    ensures r.Finite? <==> n.Some?
    ensures r.Absent? <==> n.None?
  {
    if n.Some? then Finite(n.value) else Absent
  }

  /** JavaScript truthiness of a nullable number: null, 0 and NaN are falsy. */
  predicate Truthy(n: Option<real>) {
    n.Some? && n.value != 0.0
  }

  /** `n || d` for a nullable number. */
  function OrElse(n: Option<real>, d: real): (r: real)
    ensures Truthy(n) ==> r == n.value
    ensures !Truthy(n) ==> r == d
  {
    if Truthy(n) then n.value else d
  }

  /** `n || null` for a nullable number: a falsy value becomes null. */
  function OrNull(n: Option<real>): (r: Option<real>)
    ensures r.Some? <==> Truthy(n)
    ensures r.Some? ==> r.value == n.value
  {
    if Truthy(n) then n else None
  }

  /** Math.floor */
  function Floor(x: real): (r: int)
    ensures r as real <= x < r as real + 1.0
  {
    x.Floor
  }

  /** Math.ceil */
  function Ceil(x: real): (r: int)
    ensures r as real - 1.0 < x <= r as real
  {
    if x.Floor as real == x then x.Floor else x.Floor + 1
  }

  /** Math.round: the nearest integer, halves rounded towards +Infinity. */
  function Round(x: real): (r: int)
    ensures r as real - 0.5 <= x < r as real + 0.5
  {
    (x + 0.5).Floor
  }

  /** Math.min on two numbers. */
  function Min(a: real, b: real): (r: real)
    ensures r <= a && r <= b && (r == a || r == b)
  {
    if a <= b then a else b
  }

  /** Math.max on two numbers. */
  function Max(a: real, b: real): (r: real)
    ensures r >= a && r >= b && (r == a || r == b)
  {
    if a >= b then a else b
  }

  /** Rounding never leaves an interval whose ends are integers. */
  lemma RoundWithin(x: real, lo: int, hi: int)
    requires lo as real <= x <= hi as real
    ensures lo <= Round(x) <= hi
  {
  }

  /** Rounding is monotone. */
  lemma RoundMonotone(x: real, y: real)
    requires x <= y
    ensures Round(x) <= Round(y)
  {
  }

  /** Rounding an integer gives it back. */
  lemma RoundOfInteger(n: int)
    ensures Round(n as real) == n
  {
  }
}
