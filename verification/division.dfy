/** `dividir`: division that rejects a zero denominator. Python floats are
    modelled as exact reals. */
module Division {
  import opened Wrappers

  /** The raised `ZeroDivisionError`. */
  datatype ErrorDivision = DivisionPorCero

  /** Python's `dividir(a, b)`: a zero denominator is rejected, otherwise the
      quotient is returned. */
  function Dividir(a: real, b: real): (r: Result<real, ErrorDivision>)
    ensures r.Failure? <==> b == 0.0
    ensures r.Success? ==> r.value * b == a
  {
    if b == 0.0 then Failure(DivisionPorCero) else Success(a / b)
  }
}
