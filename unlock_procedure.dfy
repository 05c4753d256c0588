/**
 * The procedures of src/scripts/manuscritos.ts that drive the unlock pass, written as the
 * loops they are and proved to compute what `Unlock.Pasada` specifies. The downloads
 * directory is an `Archivos` object that the downloads and repairs update in place.
 */
module UnlockProcedure {
  import opened Wrappers
  import opened Records
  import opened Helpers
  import Listing
  import Patterns
  import opened PdfUtils
  import ApiUtils
  import opened Unlock

  /** `procesarDescargaYCodigo`. */
  method ProcesarDescargaYCodigo(s: Sitio, archivos: Archivos, titulo: string) returns (x: Tramo)
    modifies archivos
    ensures x == DescargaYCodigo(s, titulo, old(archivos.tamanos))
    ensures archivos.tamanos == x.archivos
  {
    var ruta := Ruta(titulo);
    var lanza := archivos.DescargarPDF(ruta, s.descarga(titulo));
    if lanza {
      return Lanzo(archivos.tamanos);
    }
    var _ := archivos.RepararYReemplazarPDF(ruta, s.reparacion(titulo));
    var codigo := archivos.ExtraerCodigo(ruta, s.textoPdf(titulo));
    var despues := archivos.tamanos;
    match codigo
    case Codigo(c) =>
      x := Hecho(c, despues);
    case LecturaFallida =>
      x := Lanzo(despues);
  }

  /** `procesarModalYDesbloquear`; `cerrarModal` has no effect the model tracks. */
  method ProcesarModalYDesbloquear(s: Sitio, archivos: Archivos, titulo: string, codigoAnterior: string) returns (x: Tramo)
    modifies archivos
    ensures x == ProcesarModal(s, titulo, codigoAnterior, old(archivos.tamanos))
    ensures archivos.tamanos == x.archivos
  {
    var password := ApiUtils.ResolverDesafioApi(s.botonCopiar(titulo), s.endpoint(titulo), titulo, codigoAnterior, s.codificar, s.pedir);
    if !s.modal(titulo) || password.None? {
      return Lanzo(archivos.tamanos);
    }
    var codigo := s.portapapeles(titulo);
    var coincidencia := Patterns.ContrasenaEn(codigo);
    if coincidencia.None? {
      return Hecho(password, archivos.tamanos);
    }
    if !s.espera(titulo) {
      return Lanzo(archivos.tamanos);
    }
    var ruta := Ruta(titulo);
    var lanza := archivos.DescargarPDF(ruta, s.descarga(titulo));
    if lanza {
      return Lanzo(archivos.tamanos);
    }
    var _ := archivos.RepararYReemplazarPDF(ruta, s.reparacion(titulo));
    x := Hecho(Some(codigo), archivos.tamanos);
  }

  /** The fallback branch: the `try` at lines 242-250 and its `catch`. */
  method IntentarRespaldo(s: Sitio, archivos: Archivos, titulo: string, e: Estado) returns (r: Estado)
    requires e.archivos == archivos.tamanos
    modifies archivos
    ensures r == Respaldar(s, titulo, e) && archivos.tamanos == r.archivos
  {
    var mas := e.descargados + {titulo};
    if !s.respaldo(titulo) {
      return Estado(e.codigo, mas, archivos.tamanos, e.progreso);
    }
    var ruta := Ruta(titulo);
    var lanza := archivos.DescargarPDF(ruta, s.descarga(titulo));
    if lanza {
      return Estado(e.codigo, mas, archivos.tamanos, e.progreso);
    }
    var _ := archivos.RepararYReemplazarPDF(ruta, s.reparacion(titulo));
    var codigo := archivos.ExtraerCodigo(ruta, s.textoPdf(titulo));
    r := Estado(e.codigo, mas, archivos.tamanos, e.progreso || codigo.Codigo?);
  }

  /**
   * Visiting one pending record: the four tests of the `for` loop at lines 195-255, each
   * ending in `continue`, as computed by `Despachar`.
   */
  method Visitar(s: Sitio, archivos: Archivos, e: Estado, actual: Manuscrito) returns (r: Salida)
    requires e.archivos == archivos.tamanos
    modifies archivos
    ensures r == Paso(s, e, actual)
    ensures archivos.tamanos == ArchivosDe(r)
  {
    match Despachar(actual, e.codigo, e.descargados)
    case Directa =>
      r := VisitarConDescarga(s, archivos, e, actual);
    case ConCodigo =>
      r := VisitarConDescarga(s, archivos, e, actual);
    case Desafio =>
      r := VisitarDesafio(s, archivos, e, actual);
    case Respaldo =>
      r := VisitarRespaldo(s, archivos, e, actual);
    case Omitida =>
      r := Sigue(e);
  }

  /** Lines 201-223: unlock with the current code if the card needs it, then download and extract. */
  method VisitarConDescarga(s: Sitio, archivos: Archivos, e: Estado, actual: Manuscrito) returns (r: Salida)
    requires e.archivos == archivos.tamanos
    requires Despachar(actual, e.codigo, e.descargados) in {Directa, ConCodigo}
    modifies archivos
    ensures r == Paso(s, e, actual)
    ensures archivos.tamanos == ArchivosDe(r)
  {
    var t := actual.titulo;
    if !actual.botonBool && !s.desbloqueo(t) {
      return Aborta(archivos.tamanos);
    }
    if !s.espera(t) {
      return Aborta(archivos.tamanos);
    }
    var x := ProcesarDescargaYCodigo(s, archivos, t);
    r := DeTramo(x, e.descargados + {t});
  }

  /** Lines 224-238. */
  method VisitarDesafio(s: Sitio, archivos: Archivos, e: Estado, actual: Manuscrito) returns (r: Salida)
    requires e.archivos == archivos.tamanos
    requires Despachar(actual, e.codigo, e.descargados) == Desafio
    modifies archivos
    ensures r == Paso(s, e, actual)
    ensures archivos.tamanos == ArchivosDe(r)
  {
    var t := actual.titulo;
    var x := ProcesarModalYDesbloquear(s, archivos, t, e.codigo.value);
    r := DeTramo(x, e.descargados + {t});
  }

  /** Lines 241-254: the title is marked whether or not the `try` completed. */
  method VisitarRespaldo(s: Sitio, archivos: Archivos, e: Estado, actual: Manuscrito) returns (r: Salida)
    requires e.archivos == archivos.tamanos
    requires Despachar(actual, e.codigo, e.descargados) == Respaldo
    modifies archivos
    ensures r == Paso(s, e, actual)
    ensures archivos.tamanos == ArchivosDe(r)
  {
    var estado := IntentarRespaldo(s, archivos, actual.titulo, e);
    r := Sigue(estado);
  }

  /** The `for` loop over the pending records of one turn (lines 195-255). */
  method RecorrerPendientes(s: Sitio, archivos: Archivos, inicio: Estado, pendientes: seq<Manuscrito>) returns (r: Salida)
    requires inicio.archivos == archivos.tamanos
    modifies archivos
    ensures r == Barrido(s, inicio, pendientes) && archivos.tamanos == ArchivosDe(r)
  {
    var e := inicio;
    for i := 0 to |pendientes|
      invariant e.archivos == archivos.tamanos
      invariant Barrido(s, e, pendientes[i..]) == Barrido(s, inicio, pendientes)
    {
      assert pendientes[i..][1..] == pendientes[i + 1..];
      var salida := Visitar(s, archivos, e, pendientes[i]);
      if salida.Aborta? {
        return salida;
      }
      e := salida.estado;
    }
    assert pendientes[|pendientes|..] == [];
    r := Sigue(e);
  }

  /**
   * `desbloquearTodos`: the `while (true)` loop, the pending filter, and the `for` loop over
   * the pending records. The result is the code it returns, with the set it filled, or
   * `Abortado` when a branch threw.
   */
  method DesbloquearTodos(s: Sitio, archivos: Archivos, descargadosIniciales: set<string>, codigoInicial: Option<string>)
    returns (r: Resultado)
    requires SitioValido(s)
    modifies archivos
    ensures Final(r, archivos.tamanos) == Pasada(s, 0, codigoInicial, descargadosIniciales, old(archivos.tamanos))
  {
    var codigoActual := codigoInicial;
    var descargados := descargadosIniciales;
    var n := 0;
    while true
      invariant Pasada(s, n, codigoActual, descargados, archivos.tamanos) == Pasada(s, 0, codigoInicial, descargadosIniciales, old(archivos.tamanos))
      decreases |s.universo - descargados|
    {
      ghost var alInicio := archivos.tamanos;
      var manuscritos := Listing.Deduplicar(s.tarjetas(n));
      manuscritos := OrdenarManuscritosPorSiglo(manuscritos);
      var pendientes := SinArchivo(manuscritos, archivos.tamanos);
      pendientes := OrdenarManuscritosPorSiglo(pendientes);
      assert pendientes == Pendientes(s, n, archivos.tamanos);
      if |pendientes| == 0 {
        return Fin(codigoActual, descargados);
      }
      var salida := RecorrerPendientes(s, archivos, Estado(codigoActual, descargados, archivos.tamanos, false), pendientes);
      if salida.Aborta? {
        return Abortado;
      }
      var e := salida.estado;
      if !e.progreso {
        return Fin(e.codigo, e.descargados);
      }
      PendientesEnUniverso(s, n, alInicio);
      Reduce(s.universo, descargados, e.descargados, Titulos(pendientes));
      codigoActual, descargados := e.codigo, e.descargados;
      n := n + 1;
    }
  }
}
