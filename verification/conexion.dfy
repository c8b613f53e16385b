/** `conectar_base_datos`: a simulated connection decision on host and port. */
module Conexion {
  import opened Texto

  /** Lowest and highest acceptable port numbers. */
  const PuertoMinimo: int := 1
  const PuertoMaximo: int := 65535

  /** The branch the connection attempt ends in, in the order
      `conectar_base_datos` tests them. */
  datatype Escenario =
    | PuertoInvalido   // port outside [1, 65535]: critical, no connection
    | Local            // "localhost" or "127.0.0.1"
    | Produccion       // host starting with "prod"
    | HostVacio        // empty host: error, no connection
    | Remoto           // any other host

  predicate PuertoValido(puerto: int) {
    PuertoMinimo <= puerto <= PuertoMaximo
  }

  predicate EsLocal(host: string) {
    host == "localhost" || host == "127.0.0.1"
  }

  /** Neither local host name starts with "prod", so the order of those two
      tests in `conectar_base_datos` does not matter. */
  lemma LocalNoEsProduccion(host: string)
    requires EsLocal(host)
    ensures !StartsWith(host, "prod")
  {
    assert host[..4] == "loca" || host[..4] == "127.";
  }

  /** Which branch a call with this host and port takes. The timeout is not an
      argument: `conectar_base_datos` only uses it for a warning. */
  function Clasificar(host: string, puerto: int): (e: Escenario)
    ensures e == PuertoInvalido <==> !PuertoValido(puerto)
    ensures e == Local <==> PuertoValido(puerto) && EsLocal(host)
    ensures e == Produccion <==> PuertoValido(puerto) && StartsWith(host, "prod")
    ensures e == HostVacio <==> PuertoValido(puerto) && host == []
    ensures e == Remoto <==> PuertoValido(puerto) && host != [] && !EsLocal(host) && !StartsWith(host, "prod")
  {
    if puerto < PuertoMinimo || puerto > PuertoMaximo then PuertoInvalido
    else if host == "localhost" || host == "127.0.0.1" then (LocalNoEsProduccion(host); Local)
    else if StartsWith(host, "prod") then Produccion
    else if host == "" then HostVacio
    else Remoto
  }

  /** Whether a branch reports a successful connection. */
  predicate Conecta(e: Escenario) {
    e != PuertoInvalido && e != HostVacio
  }

  /** Python's `conectar_base_datos(host, puerto, timeout)`. */
  function ConectarBaseDatos(host: string, puerto: int, timeout: int): (ok: bool)
    ensures !PuertoValido(puerto) ==> !ok
    ensures PuertoValido(puerto) ==> (ok <==> host != [])
  {
    Conecta(Clasificar(host, puerto))
  }

  /** The low-timeout warning is raised for a valid port and a non-local host
      whose timeout is below one second; it is only a warning. */
  predicate AvisoTimeout(host: string, puerto: int, timeout: int) {
    PuertoValido(puerto) && !EsLocal(host) && timeout < 1
  }

  /** The timeout never changes the outcome, in particular not when it draws
      the warning. */
  lemma TimeoutNoInfluye(host: string, puerto: int, t1: int, t2: int)
    ensures ConectarBaseDatos(host, puerto, t1) == ConectarBaseDatos(host, puerto, t2)
    ensures AvisoTimeout(host, puerto, t1) ==> (ConectarBaseDatos(host, puerto, t1) <==> host != [])
  {
  }

  /** Success in a single formula: a valid port and a non-empty host. */
  lemma ConexionExitosaSiiPuertoYHost(host: string, puerto: int, timeout: int)
    ensures ConectarBaseDatos(host, puerto, timeout) <==> PuertoValido(puerto) && host != []
  {
  }
}
