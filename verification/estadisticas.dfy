/** `calcular_estadisticas`: count, maximum, minimum and mean of a list of
    numbers. Python floats are modelled as exact reals. */
module Estadisticas {
  import opened Wrappers

  /** The statistics record of a non-empty list. */
  datatype Estadisticas = Estadisticas(promedio: real, maximo: real, minimo: real, cantidad: nat)

  /** The only rejection: an empty list. */
  datatype ErrorEstadisticas = ListaVacia

  /** The message stored under the `error` key. */
  function Mensaje(e: ErrorEstadisticas): string {
    "Lista vacía"
  }

  /** Python's `sum(numeros)` over exact reals. */
  function Suma(xs: seq<real>): real {
    if xs == [] then 0.0 else xs[0] + Suma(xs[1..])
  }

  /** Python's `sum` as it runs: a running total taken from the left,
      starting at `acc`. */
  function SumaDesde(acc: real, xs: seq<real>): real
    decreases |xs|
  {
    if xs == [] then acc else SumaDesde(acc + xs[0], xs[1..])
  }

  /** Adding from the left, as `sum` does, gives the same total as `Suma`. */
  lemma {:induction false} SumaDeIzquierdaADerecha(acc: real, xs: seq<real>)
    ensures SumaDesde(acc, xs) == acc + Suma(xs)
    decreases |xs|
  {
    if xs != [] {
      SumaDeIzquierdaADerecha(acc + xs[0], xs[1..]);
    }
  }

  /** Python's `max(numeros)`: an element that bounds every element from above. */
  function Maximo(xs: seq<real>): (m: real)
    requires |xs| > 0
    ensures m in xs
    ensures forall i :: 0 <= i < |xs| ==> xs[i] <= m
  {
    if |xs| == 1 then xs[0]
    else
      var rest := Maximo(xs[1..]);
      if xs[0] >= rest then xs[0] else rest
  }

  /** Python's `min(numeros)`: an element that bounds every element from below. */
  function Minimo(xs: seq<real>): (m: real)
    requires |xs| > 0
    ensures m in xs
    ensures forall i :: 0 <= i < |xs| ==> m <= xs[i]
  {
    if |xs| == 1 then xs[0]
    else
      var rest := Minimo(xs[1..]);
      if xs[0] <= rest then xs[0] else rest
  }

  /** `n` copies of `x` added together, that is `n * x`, kept as repeated
      addition so that bounds on sums stay linear. */
  function Escala(n: nat, x: real): real {
    if n == 0 then 0.0 else Escala(n - 1, x) + x
  }

  /** Repeated addition is multiplication. */
  lemma {:induction false} EscalaEsProducto(n: nat, x: real)
    ensures Escala(n, x) == n as real * x
  {
    if n > 0 {
      EscalaEsProducto(n - 1, x);
      assert n as real * x == (n - 1) as real * x + x;
    }
  }

  /** For a positive count, a smaller value gives a smaller total. */
  lemma {:induction false} EscalaEstricta(n: nat, a: real, b: real)
    requires n > 0 && a < b
    ensures Escala(n, a) < Escala(n, b)
  {
    if n > 1 {
      EscalaEstricta(n - 1, a, b);
    }
  }

  /** A sum of `n` numbers that all lie in `[lo, hi]` lies between `n` times
      `lo` and `n` times `hi`. */
  lemma {:induction false} SumaAcotada(xs: seq<real>, lo: real, hi: real)
    requires forall i :: 0 <= i < |xs| ==> lo <= xs[i] <= hi
    ensures Escala(|xs|, lo) <= Suma(xs) <= Escala(|xs|, hi)
    decreases |xs|
  {
    if xs != [] {
      SumaAcotada(xs[1..], lo, hi);
    }
  }

  /** `sum(numeros) / len(numeros)` over exact reals: the value that, taken as
      many times as there are numbers, gives their sum. */
  function Promedio(xs: seq<real>): (p: real)
    requires xs != []
    ensures Escala(|xs|, p) == Suma(xs)
  {
    var n := |xs| as real;
    var p := Suma(xs) / n;
    assert p * n == Suma(xs);
    EscalaEsProducto(|xs|, p);
    p
  }

  /** The mean lies between the smallest and the largest number. */
  lemma PromedioEntreExtremos(xs: seq<real>)
    requires xs != []
    ensures Minimo(xs) <= Promedio(xs) <= Maximo(xs)
  {
    var p := Promedio(xs);
    SumaAcotada(xs, Minimo(xs), Maximo(xs));
    if p < Minimo(xs) {
      EscalaEstricta(|xs|, p, Minimo(xs));
    }
    if p > Maximo(xs) {
      EscalaEstricta(|xs|, Maximo(xs), p);
    }
  }

  /** Python's `calcular_estadisticas(numeros)`: the empty list is rejected;
      otherwise the record holds the mean, the extremes and the count. */
  function CalcularEstadisticas(xs: seq<real>): (r: Result<Estadisticas, ErrorEstadisticas>)
    ensures r.Failure? <==> xs == []
    ensures r.Success? ==> r.value.cantidad == |xs|
    ensures r.Success? ==> r.value.maximo in xs && forall i :: 0 <= i < |xs| ==> xs[i] <= r.value.maximo
    ensures r.Success? ==> r.value.minimo in xs && forall i :: 0 <= i < |xs| ==> r.value.minimo <= xs[i]
    ensures r.Success? ==> Escala(|xs|, r.value.promedio) == Suma(xs)
    ensures r.Success? ==> r.value.minimo <= r.value.promedio <= r.value.maximo
  {
    if xs == [] then Failure(ListaVacia)
    else
      PromedioEntreExtremos(xs);
      Success(Estadisticas(Promedio(xs), Maximo(xs), Minimo(xs), |xs|))
  }
}
