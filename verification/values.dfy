/** Runtime values (`Number`): an int or a float, with an optional span. */
module Values {
  import opened Wrappers
  import opened Positions
  import opened Errors

  /** The numeric payload: Python keeps ints and floats apart, and the model keeps them apart too.
      Floats are exact reals here. */
  datatype Num = Int(i: int) | Float(f: real)

  /** The mathematical value of a payload. */
  function AsReal(n: Num): real
  {
    match n
    case Int(i) => i as real
    case Float(f) => f
  }

  /** A number and the span of source text it came from (absent for the seeded `null`). */
  datatype Number = Number(value: Num, start: Option<Position>, end: Option<Position>)

  /** `set_pos`. */
  function SetPos(n: Number, start: Option<Position>, end: Option<Position>): Number
  {
    n.(start := start, end := end)
  }

  /** A fresh `Number(value)` carries no span. */
  function Fresh(v: Num): Number
  {
    Number(v, None, None)
  }

  /** The payload an arithmetic operator other than `/` yields: int when both
      operands are ints, float otherwise. */
  function Mixed(a: Num, b: Num, ii: (int, int) -> int, rr: (real, real) -> real): Num
  {
    if a.Int? && b.Int? then Int(ii(a.i, b.i)) else Float(rr(AsReal(a), AsReal(b)))
  }

  /** `added_to` */
  function AddedTo(a: Number, b: Number): (r: Number)
    ensures r.value.Int? <==> a.value.Int? && b.value.Int?
    ensures AsReal(r.value) == AsReal(a.value) + AsReal(b.value)
    ensures r.start.None? && r.end.None?
  {
    Fresh(Mixed(a.value, b.value, (x, y) => x + y, (x, y) => x + y))
  }

  /** `subbed_by` */
  function SubbedBy(a: Number, b: Number): (r: Number)
    ensures r.value.Int? <==> a.value.Int? && b.value.Int?
    ensures AsReal(r.value) == AsReal(a.value) - AsReal(b.value)
    ensures r.start.None? && r.end.None?
  {
    Fresh(Mixed(a.value, b.value, (x, y) => x - y, (x, y) => x - y))
  }

  /** `multed_by` */
  function MultedBy(a: Number, b: Number): (r: Number)
    ensures r.value.Int? <==> a.value.Int? && b.value.Int?
    ensures AsReal(r.value) == AsReal(a.value) * AsReal(b.value)
    ensures r.start.None? && r.end.None?
  {
    Fresh(Mixed(a.value, b.value, (x, y) => x * y, (x, y) => x * y))
  }

  const DivisionByZero: string := "Division by zero"

  /** `dived_by`: true division, so always a float; a zero divisor (int or
      float) is a runtime error spanning the divisor. */
  function DivedBy(a: Number, b: Number): (r: Result<Number, Error>)
    ensures r.Failure? <==> AsReal(b.value) == 0.0
    ensures r.Failure? ==> r.error == Error(RuntimeError, b.start, b.end, DivisionByZero)
    ensures r.Success? ==> r.value.value.Float? && AsReal(r.value.value) * AsReal(b.value) == AsReal(a.value)
    ensures r.Success? ==> r.value.start.None? && r.value.end.None?
  {
    if AsReal(b.value) == 0.0 then Failure(Error(RuntimeError, b.start, b.end, DivisionByZero))
    else Success(Fresh(Float(AsReal(a.value) / AsReal(b.value))))
  }
}
