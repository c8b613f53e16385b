/** `procesar_archivo`: a simulated file-processing decision on the file name. */
module Archivos {
  import opened Texto

  /** The extensions `procesar_archivo` regards as standard. */
  const ExtensionesEstandar: seq<string> := [".txt", ".csv", ".json"]

  /** The marker whose presence, in any letter case, makes reading fail. */
  const Marca: string := "error"

  /** Python's `nombre.endswith(('.txt', '.csv', '.json'))`. */
  predicate ExtensionEstandar(nombre: string) {
    exists k :: 0 <= k < |ExtensionesEstandar| && EndsWith(nombre, ExtensionesEstandar[k])
  }

  /** Python's `"error" in nombre.lower()`: the simulated read error. */
  predicate ErrorSimulado(nombre: string) {
    Contains(ToLower(nombre), Marca)
  }

  /** Python's `procesar_archivo(nombre)`: an empty name aborts, a name whose
      lower-cased form contains the marker fails with the simulated I/O error,
      every other name succeeds. The extension test only draws a warning. */
  function ProcesarArchivo(nombre: string): (ok: bool)
    ensures nombre == [] ==> !ok
    ensures nombre != [] ==> (ok <==> !IsSubstring(Marca, ToLower(nombre)))
  {
    if nombre == [] then false
    else if ErrorSimulado(nombre) then false
    else true
  }

  /** Letter case does not matter: a name and its lower-cased form get the same
      outcome. */
  lemma InsensibleAMayusculas(nombre: string)
    ensures ProcesarArchivo(ToLower(nombre)) == ProcesarArchivo(nombre)
  {
    ToLowerIdempotent(nombre);
  }

  /** The marker anywhere in a name, in any case, makes the whole name fail,
      whatever surrounds it. */
  lemma MarcaEnCualquierParte(a: string, m: string, b: string)
    requires IsSubstring(Marca, ToLower(m))
    ensures !ProcesarArchivo(a + m + b)
  {
    ToLowerConcat(a + m, b);
    ToLowerConcat(a, m);
    SubstringOfConcat(Marca, ToLower(a), ToLower(m), ToLower(b));
  }

  /** A name without the letter `r` cannot contain the marker. */
  lemma SinRNoHayMarca(s: string)
    requires 'r' !in s
    ensures !IsSubstring(Marca, s)
  {
    forall i | 0 <= i <= |s| - |Marca|
      ensures !OccursAt(Marca, s, i)
    {
      assert s[i + 1] in s;
      assert Marca[1] == 'r';
      assert s[i + 1] != 'r';
      assert s[i..i + |Marca|][1] == s[i + 1];
    }
  }

  /** Each standard extension is already lower case, starts with a dot and is
      no longer than the marker. */
  lemma ExtensionesEnMinuscula(e: string)
    requires e in ExtensionesEstandar
    ensures ToLower(e) == e && |e| <= |Marca| && e[0] == '.'
  {
    assert e == ".txt" || e == ".csv" || e == ".json";
    ToLowerWithoutCapitals(e);
  }

  /** Appending a standard extension to a non-empty name never changes the
      outcome: the extension contains no `error`, and an occurrence cannot
      straddle the boundary because the extension starts with `.`, which the
      marker lacks. */
  lemma ExtensionNoCambia(s: string, e: string)
    requires s != [] && e in ExtensionesEstandar
    ensures ProcesarArchivo(s + e) == ProcesarArchivo(s)
  {
    ToLowerConcat(s, e);
    ExtensionesEnMinuscula(e);
    var ls := ToLower(s);
    MarcaAntesDelPunto(ls, e);
    if IsSubstring(Marca, ls) {
      SubstringOfConcat(Marca, [], ls, e);
      assert [] + ls + e == ls + e;
    }
  }

  /** An occurrence of the marker in `ls + e`, where `e` starts with a dot and
      is no longer than the marker, lies wholly inside `ls`. */
  lemma MarcaAntesDelPunto(ls: string, e: string)
    requires |e| <= |Marca| && e != [] && e[0] == '.'
    ensures IsSubstring(Marca, ls + e) ==> IsSubstring(Marca, ls)
  {
    forall i | 0 <= i <= |ls| < i + |Marca| <= |ls + e|
      ensures !OccursAt(Marca, ls + e, i)
    {
      assert (ls + e)[i..i + |Marca|][|ls| - i] == '.';
    }
    if IsSubstring(Marca, ls + e) {
      var i :| OccursAt(Marca, ls + e, i);
      if i + |Marca| <= |ls| {
        assert (ls + e)[i..i + |Marca|] == ls[i..i + |Marca|];
        assert OccursAt(Marca, ls, i);
      }
    }
  }

  /** `documento.docx`: a non-standard extension, and the name succeeds. */
  lemma DocumentoDocx()
    ensures !ExtensionEstandar("documento.docx") && ProcesarArchivo("documento.docx")
  {
    ToLowerWithoutCapitals("documento.docx");
    assert 'r' !in "documento.docx";
    SinRNoHayMarca("documento.docx");
  }

  /** `archivo_con_error.txt`: a standard extension, and the name fails. */
  lemma ArchivoConErrorTxt()
    ensures ExtensionEstandar("archivo_con_error.txt") && !ProcesarArchivo("archivo_con_error.txt")
  {
    assert EndsWith("archivo_con_error.txt", ExtensionesEstandar[0]);
    ToLowerWithoutCapitals(Marca);
    assert OccursAt(Marca, Marca, 0);
    MarcaEnCualquierParte("archivo_con_", Marca, ".txt");
    assert "archivo_con_" + Marca + ".txt" == "archivo_con_error.txt";
  }

  /** The extension does not decide the outcome: a name with a non-standard
      extension succeeds and one with a standard extension fails; what
      decides, for every name, is stated by `ExtensionNoCambia`. */
  lemma ExtensionNoDecide()
    ensures !ExtensionEstandar("documento.docx") && ProcesarArchivo("documento.docx")
    ensures ExtensionEstandar("archivo_con_error.txt") && !ProcesarArchivo("archivo_con_error.txt")
  {
    DocumentoDocx();
    ArchivoConErrorTxt();
  }
}
