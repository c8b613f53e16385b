/** `procesar_usuario`: validates a user's name and age and files the user
    into one of three age categories. */
module Usuarios {
  import opened Wrappers
  import opened Texto

  /** The three age categories. */
  datatype Categoria = Menor | Adulto | AdultoMayor

  /** The two ways a user record is rejected. */
  datatype ErrorUsuario = NombreInvalido | EdadInvalida

  /** A processed user: the stripped name, the age and its category. */
  datatype Usuario = Usuario(nombre: string, edad: int, categoria: Categoria)

  /** Age from which a user is an adult. */
  const EdadAdulto: nat := 18

  /** Age from which a user is a senior adult. */
  const EdadMayor: nat := 65

  /** The category names the result record carries. */
  function Etiqueta(c: Categoria): string {
    match c
    case Menor => "menor"
    case Adulto => "adulto"
    case AdultoMayor => "adulto_mayor"
  }

  /** The message stored under the `error` key. */
  function Mensaje(e: ErrorUsuario): string {
    match e
    case NombreInvalido => "Nombre inválido"
    case EdadInvalida => "Edad inválida"
  }

  /** Position of a category in age order. */
  function Orden(c: Categoria): nat {
    match c
    case Menor => 0
    case Adulto => 1
    case AdultoMayor => 2
  }

  /** First age of each category. */
  function Desde(c: Categoria): nat {
    match c
    case Menor => 0
    case Adulto => EdadAdulto
    case AdultoMayor => EdadMayor
  }

  /** The age range of a category, read off a table of lower bounds: from
      its own first age up to, but excluding, the next category's first age. */
  predicate EnRango(edad: int, c: Categoria) {
    && Desde(c) <= edad
    && (c == Menor ==> edad < Desde(Adulto))
    && (c == Adulto ==> edad < Desde(AdultoMayor))
  }

  /** The category of a non-negative age, tested in the order `procesar_usuario` uses:
      under 18 first, then under 65, otherwise senior. */
  function CategoriaDeEdad(edad: nat): (c: Categoria)
    ensures c == Menor <==> edad <= 17
    ensures c == Adulto <==> 18 <= edad <= 64
    ensures c == AdultoMayor <==> 65 <= edad
  {
    if edad < EdadAdulto then Menor
    else if edad < EdadMayor then Adulto
    else AdultoMayor
  }

  /** The categories partition the non-negative ages: every age lies in the
      range of exactly one category, and that category is the one computed. */
  lemma CategoriasParticion(edad: nat, c: Categoria)
    ensures EnRango(edad, c) <==> c == CategoriaDeEdad(edad)
  {
  }

  /** An older user is never put in a younger category. */
  lemma CategoriaMonotona(a: nat, b: nat)
    requires a <= b
    ensures Orden(CategoriaDeEdad(a)) <= Orden(CategoriaDeEdad(b))
  {
  }

  /** Python's `procesar_usuario(nombre, edad)`: an empty or whitespace-only
      name is rejected before the age is looked at; then a negative age is
      rejected; otherwise the record holds the stripped name, the age and its
      category. */
  function ProcesarUsuario(nombre: string, edad: int): (r: Result<Usuario, ErrorUsuario>)
    ensures r == Failure(NombreInvalido) <==> Blank(nombre)
    ensures r == Failure(EdadInvalida) <==> !Blank(nombre) && edad < 0
    ensures r.Success? <==> !Blank(nombre) && edad >= 0
    ensures r.Success? ==> r.value.edad == edad && EnRango(edad, r.value.categoria)
    ensures r.Success? ==> r.value.nombre == Strip(nombre)
    ensures r.Success? ==> r.value.nombre != [] && !IsSpace(r.value.nombre[0])
  {
    if |nombre| == 0 || Strip(nombre) == [] then Failure(NombreInvalido)
    else if edad < 0 then Failure(EdadInvalida)
    else Success(Usuario(Strip(nombre), edad, CategoriaDeEdad(edad)))
  }

  /** The name check takes precedence: a blank name gives the same error
      whatever the age, negative ages included. */
  lemma NombrePrecedeAEdad(nombre: string, a: int, b: int)
    requires Blank(nombre)
    ensures ProcesarUsuario(nombre, a) == ProcesarUsuario(nombre, b) == Failure(NombreInvalido)
  {
  }

  /** The short-name warning condition: fewer than two characters. */
  predicate NombreCorto(nombre: string) {
    |nombre| < 2
  }

  /** A name shorter than two characters only draws a warning: when it is not
      blank and the age is valid, the user is processed and keeps the name
      exactly as given. */
  lemma NombreCortoNoSeRechaza(nombre: string, edad: int)
    requires NombreCorto(nombre) && !Blank(nombre) && edad >= 0
    ensures ProcesarUsuario(nombre, edad).Success?
    ensures ProcesarUsuario(nombre, edad).value.nombre == nombre
  {
  }

  /** The successful record's name is what is left of the given name once the
      surrounding whitespace is cut, and nothing else of it is lost. */
  lemma NombreProcesadoEsRecorte(nombre: string, edad: int)
    requires ProcesarUsuario(nombre, edad).Success?
    ensures var n := ProcesarUsuario(nombre, edad).value.nombre;
            var k := LeadingSpaces(nombre);
            && k + |n| <= |nombre|
            && nombre[k..k + |n|] == n
            && (forall i :: 0 <= i < k ==> IsSpace(nombre[i]))
            && (forall i :: k + |n| <= i < |nombre| ==> IsSpace(nombre[i]))
  {
    StripIsTrimmedSlice(nombre);
  }
}
