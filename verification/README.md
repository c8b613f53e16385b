# Validators of `ejemplo_logging.py`, modelled in Dafny

The logging demonstration script wraps a handful of small, pure decision
functions in log calls. This project models those decisions and proves what
they promise. The log calls never change a return value, so they are dropped.

- `procesar_usuario` rejects an empty or whitespace-only name. It then rejects
  a negative age. Otherwise it files the user as `menor` (0-17), `adulto`
  (18-64) or `adulto_mayor` (65 and over) and returns the stripped name
  (module `Usuarios`).
- `conectar_base_datos` is a simulated connection. It fails for a port outside
  1-65535. Then it branches on a local host, a `prod` host, an empty host and
  any other host. Only the empty host fails (module `Conexion`).
- `procesar_archivo` is a simulated file read. It fails for an empty name and
  for a name whose lower-cased form contains `error` (module `Archivos`).
- `calcular_estadisticas` rejects the empty list. Otherwise it returns the
  mean, maximum, minimum and count (module `Estadisticas`).
- `dividir` rejects a zero denominator (module `Division`).

The string operations these use are in module `Texto`: `str.strip()`,
`str.lower()`, `startswith`, `endswith` and the `in` substring test. The
`{"error": ...}` dictionaries become the `Failure` side of `Wrappers.Result`,
with the original message available from a `Mensaje` function. Python floats
are exact `real`s.

A negative age is rejected with `Edad inválida`
(src/ejemplo_logging.py:111-113); it is not merely logged.

## Model

| member | source | states |
|---|---|---|
| Usuarios.ProcesarUsuario | src/ejemplo_logging.py:89-132 | The name error happens exactly when every character of the name is whitespace, the empty name included. The age error happens exactly when the name is not blank and the age is negative. Success happens exactly otherwise, and the record holds the stripped name (non-empty, no leading whitespace), the unchanged age and a category whose range contains the age. |
| Usuarios.NombrePrecedeAEdad | src/ejemplo_logging.py:103-113 | A blank name gives the name error for every age, negative ages included, so the name check takes precedence. |
| Usuarios.NombreCortoNoSeRechaza | src/ejemplo_logging.py:107-108 | A non-blank name shorter than two characters with a valid age is accepted and kept exactly as given. The short-name check only warns. |
| Usuarios.CategoriaDeEdad | src/ejemplo_logging.py:115-123 | Ages 0-17 give `Menor`, 18-64 give `Adulto` and 65 and over give `AdultoMayor`, each in both directions. |
| Usuarios.CategoriasParticion | src/ejemplo_logging.py:115-123 | Categories are checked against a separate table of lower bounds. A non-negative age lies in a category's range exactly when that category is the computed one, so the three ranges partition the non-negative integers. |
| Usuarios.CategoriaMonotona | src/ejemplo_logging.py:115-123 | An older user is never filed in a younger category. |
| Usuarios.NombreProcesadoEsRecorte | src/ejemplo_logging.py:125-129 | The stored name is a contiguous slice of the given name. Everything cut away before and after it is whitespace. |
| Texto.Strip | src/ejemplo_logging.py:103 | `strip()` returns the empty string exactly when the input is all whitespace. Otherwise the result neither starts nor ends with whitespace. |
| Texto.StripIsTrimmedSlice | src/ejemplo_logging.py:126 | `strip()` removes only a whitespace prefix and a whitespace suffix. |
| Texto.StripIdempotent | src/ejemplo_logging.py:126 | Stripping a stripped name changes nothing. |
| Texto.LeadingSpaces | src/ejemplo_logging.py:103 | The count of leading whitespace: every character before it is whitespace and the one at it is not. |
| Texto.TrailingStart | src/ejemplo_logging.py:103 | The start of the trailing whitespace: every character from it on is whitespace and the one before it is not. |
| Texto.Contains | src/ejemplo_logging.py:200 | The left-to-right substring search answers true exactly when the pattern occurs at some offset. |
| Texto.ToLowerIdempotent | src/ejemplo_logging.py:200 | Lower-casing twice equals lower-casing once. |
| Texto.ToLower | src/ejemplo_logging.py:200 | `lower()` keeps the length. Each capital `A`-`Z` becomes the small letter at the same place in the alphabet, and every other character is kept. |
| Texto.ToLowerOnlyFoldsCapitals | src/ejemplo_logging.py:200 | Lower-casing leaves no ASCII capital. Each capital maps to its own small letter, and no other character changes. |
| Texto.ToLowerWithoutCapitals | src/ejemplo_logging.py:200 | A string without ASCII capitals is unchanged by lower-casing. |
| Texto.StartsWith | src/ejemplo_logging.py:162 | `startswith(p)` holds exactly when `p` is no longer than the string and agrees with it character by character from the front. |
| Texto.EndsWith | src/ejemplo_logging.py:191 | `endswith(p)` holds exactly when `p` is no longer than the string and agrees with it character by character at the back. |
| Conexion.Clasificar | src/ejemplo_logging.py:150-172 | Characterises each branch in both directions: invalid port, local host, `prod` host, empty host, other host. Each branch's condition is exact, and the invalid-port branch wins over all the host branches. |
| Conexion.LocalNoEsProduccion | src/ejemplo_logging.py:154-165 | Neither local host name starts with `prod`, so the local and production tests never compete. |
| Conexion.ConectarBaseDatos | src/ejemplo_logging.py:135-172 | An invalid port always fails, whatever the host and timeout. With a valid port, the call fails exactly when the host is empty. |
| Conexion.ConexionExitosaSiiPuertoYHost | src/ejemplo_logging.py:150-172 | A connection succeeds exactly when the port is in 1-65535 and the host is non-empty. |
| Conexion.TimeoutNoInfluye | src/ejemplo_logging.py:159-160 | Two timeouts give the same outcome. When the low-timeout warning fires, the outcome still depends only on the host being non-empty. |
| Archivos.ProcesarArchivo | src/ejemplo_logging.py:175-212 | An empty name fails. Any other name succeeds exactly when its lower-cased form does not contain `error`. |
| Archivos.InsensibleAMayusculas | src/ejemplo_logging.py:200 | A name and its lower-cased form get the same outcome. |
| Archivos.MarcaEnCualquierParte | src/ejemplo_logging.py:200-201 | A piece containing `error`, in any letter case, makes every name built around it fail. |
| Archivos.SinRNoHayMarca | src/ejemplo_logging.py:200 | A name without the letter `r` cannot contain the marker. |
| Archivos.ExtensionNoCambia | src/ejemplo_logging.py:187-205 | Appending `.txt`, `.csv` or `.json` to any non-empty name never changes the outcome. The extension check at lines 191-192 only warns. |
| Archivos.MarcaAntesDelPunto | src/ejemplo_logging.py:200 | An occurrence of `error` in a name followed by a standard extension lies wholly before the extension, because the extension starts with `.`. |
| Archivos.DocumentoDocx | src/ejemplo_logging.py:191-205 | `documento.docx` has a non-standard extension and still succeeds. |
| Archivos.ArchivoConErrorTxt | src/ejemplo_logging.py:191-205 | `archivo_con_error.txt` has a standard extension and still fails. |
| Archivos.ExtensionNoDecide | src/ejemplo_logging.py:191-205 | Taken together: one name with a non-standard extension succeeds and one with a standard extension fails. |
| Estadisticas.Maximo | src/ejemplo_logging.py:238 | `max` returns an element of the list that is at least every element. |
| Estadisticas.Minimo | src/ejemplo_logging.py:239 | `min` returns an element of the list that is at most every element. |
| Estadisticas.SumaDeIzquierdaADerecha | src/ejemplo_logging.py:237 | A running total taken from the left, as `sum` computes it, equals the model's `Suma` plus the starting value. |
| Estadisticas.SumaAcotada | src/ejemplo_logging.py:237 | The sum of `n` numbers in `[lo, hi]` lies between `n` times `lo` and `n` times `hi`. |
| Estadisticas.Promedio | src/ejemplo_logging.py:237 | The mean, taken as many times as there are numbers, gives back their sum. |
| Estadisticas.PromedioEntreExtremos | src/ejemplo_logging.py:237-239 | The mean lies between the minimum and the maximum. |
| Estadisticas.CalcularEstadisticas | src/ejemplo_logging.py:215-251 | Fails exactly on the empty list. Otherwise `cantidad` is the length, `maximo` and `minimo` are elements that bound every element above and below, and the mean times the count is the sum and lies between them. |
| Division.Dividir | src/ejemplo_logging.py:59-86 | Fails exactly when the denominator is zero. Otherwise the quotient times the denominator gives back the numerator. |

## Left out

- Every `logger.*` call, `configurar_logging`, `demo_niveles_logging` and `main`: they configure logging, print, or drive the demo, and no return value depends on them. The conditions that only draw a warning are modelled as predicates where a property mentions them: the short name (`Usuarios.NombreCorto`), the low timeout (`Conexion.AvisoTimeout`) and the non-standard extension (`Archivos.ExtensionEstandar`). The small-sample and wide-spread warnings of `calcular_estadisticas` are not modelled.
- Floating point: `dividir` and the mean use exact real arithmetic. Rounding is not modelled, and neither are infinities, NaN or `int`/`float` mixing. With floats the mean can fall just outside `[minimo, maximo]` through rounding. `PromedioEntreExtremos` holds for the exact mean only.
- Division.Dividir: the tiny-denominator warning (`abs(b) < 0.0001`) is logging only and is not modelled.
- The simulated `IOError` and the generic exception handler in `procesar_archivo`: only the resulting boolean is modelled. Nothing but the simulated error can raise there.
- Texto.ToLower: Python's `str.lower()` folds all Unicode letters. The model folds only `A`-`Z` and leaves every other character as it is.
- Texto.Strip: whitespace is the fixed set of code points for which Python's `str.isspace()` holds, written out in `IsSpace`.
- Typing: the Python functions accept whatever is passed. The model fixes the argument types (`string`, `int`, `seq<real>`) and does not model `None` or other types.
- `src/ejercicio04.py`: its only computation, `calcular_imc`, is an unimplemented stub returning `(0.0, "")`. Its validation rules exist only in a docstring, and the rest of the file is console input and output.
