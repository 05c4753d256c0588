/**
 * `desbloquearTodos` and `procesarModalYDesbloquear` of src/scripts/manuscritos.ts, as
 * functions of what the site answers. A call repeatedly reads the listing, keeps the
 * records whose PDF is not on disk, and visits them in century order; each visit takes
 * the first branch that applies: direct download, unlock with the current code, API
 * challenge, or a fallback download. The loop stops when nothing is pending or a turn
 * processed nothing.
 */
module Unlock {
  import opened Wrappers
  import opened Records
  import opened Helpers
  import JsStrings
  import Listing
  import Patterns
  import opened PdfUtils
  import ApiUtils

  /**
   * What the page, the clipboard, the HTTP API and the PDF tools answer during one call.
   * The browser is driven as a black box: each answer is looked up by the title being
   * visited (a title is visited at most once per call) or, for the HTTP request, by URL.
   */
  datatype Sitio = Sitio(
    /** Every title the site can list. */
    universo: set<string>,
    /** The cards `obtenerManuscritos` reads on the n-th turn of the loop, before deduplication. */
    tarjetas: nat -> seq<Manuscrito>,
    /** The wait for the "Descargar PDF" button completes (it throws after its timeout). */
    espera: string -> bool,
    /** The download started from the button. */
    descarga: string -> Descarga,
    /** What `repararPDF`'s subprocess does. */
    reparacion: string -> Reparacion,
    /** The text `pdf-parse` extracts from the downloaded file, `None` when it fails. */
    textoPdf: string -> Option<string>,
    /** `desbloquearSiguienteManuscrito` completes (its waits do not time out). */
    desbloqueo: string -> bool,
    /** The fallback's two-second wait for the download button completes. */
    respaldo: string -> bool,
    /** The challenge modal has a "Copiar" button. */
    botonCopiar: string -> bool,
    /** The clipboard after clicking "Copiar": the API endpoint. */
    endpoint: string -> string,
    /** `encodeURIComponent`. */
    codificar: string -> string,
    /** `axios.get`, by URL. */
    pedir: string -> ApiUtils.Http,
    /** The waits for the code input and for the "Cerrar" button complete. */
    modal: string -> bool,
    /** The clipboard read after submitting the challenge's answer. */
    portapapeles: string -> string)

  /** Every listing the site shows draws its titles from its universe. */
  ghost predicate SitioValido(s: Sitio) {
    forall n: nat :: Titulos(s.tarjetas(n)) <= s.universo
  }

  /** The PDF of a title, within the downloads directory. */
  function Ruta(titulo: string): (r: string)
    ensures JsStrings.NoSpace(r) && |r| >= 4 && r[|r| - 4..] == ".pdf"
  {
    NombrePdf(titulo)
  }

  /** The temporary copy `repararYReemplazarPDF` writes never overwrites the PDF of any title. */
  lemma TemporalNoEsRuta(t: string, u: string)
    ensures Temporal(Ruta(t)) != Ruta(u)
  {
    var x, y := Temporal(Ruta(t)), Ruta(u);
    assert x[|x| - 1] == ".tmp"[3];
    assert y[|y| - 1] == ".pdf"[3];
  }

  /** JavaScript truthiness of `codigoActual`: null, undefined and the empty string are false. */
  predicate Truthy(codigo: Option<string>) {
    codigo.Some? && codigo.value != ""
  }

  /** The branch a pending record takes. */
  datatype Rama = Directa | ConCodigo | Desafio | Respaldo | Omitida

  /** The tests at lines 201, 212, 224 and 241, in that order. */
  function Despachar(m: Manuscrito, codigo: Option<string>, descargados: set<string>): (r: Rama)
    ensures r == Omitida <==> m.titulo in descargados
    ensures r == Directa <==> m.botonBool && m.titulo !in descargados
    ensures r == ConCodigo <==> !m.botonBool && m.inputBool && Truthy(codigo) && m.titulo !in descargados
    ensures r == Desafio <==> !m.botonBool && !(m.inputBool && Truthy(codigo)) && m.verDocBoll && Truthy(codigo) && m.titulo !in descargados
    ensures !Truthy(codigo) ==> r != ConCodigo && r != Desafio
  {
    if m.botonBool && m.titulo !in descargados then Directa
    else if m.inputBool && Truthy(codigo) && m.titulo !in descargados then ConCodigo
    else if m.verDocBoll && Truthy(codigo) && m.titulo !in descargados then Desafio
    else if m.titulo !in descargados then Respaldo
    else Omitida
  }

  /** The outcome of a step that may throw: the code it produced and the files, or an exception. */
  datatype Tramo = Hecho(codigo: Option<string>, archivos: map<string, nat>) | Lanzo(archivos: map<string, nat>)

  /** The files differ at most at the PDF of a title and its temporary copy. */
  ghost predicate SoloCambia(antes: map<string, nat>, despues: map<string, nat>, ruta: string) {
    forall q :: q != ruta && q != Temporal(ruta) ==>
      (q in despues <==> q in antes) && (q in antes ==> despues[q] == antes[q])
  }

  /** `procesarDescargaYCodigo`: download unless present, repair, extract the access code. */
  function DescargaYCodigo(s: Sitio, titulo: string, archivos: map<string, nat>): (r: Tramo)
    ensures r.Lanzo? <==> Ruta(titulo) !in archivos && s.descarga(titulo).Fallida?
    ensures r.Lanzo? ==> r.archivos == archivos
    ensures r.Hecho? ==> Ruta(titulo) in r.archivos && Temporal(Ruta(titulo)) !in r.archivos
    ensures r.Hecho? ==> SoloCambia(archivos, r.archivos, Ruta(titulo))
    ensures r.Hecho? ==> r.codigo == if s.textoPdf(titulo).Some? then Patterns.CodigoDeAcceso(s.textoPdf(titulo).value) else None
  {
    var ruta := Ruta(titulo);
    var d := TrasDescarga(archivos, ruta, s.descarga(titulo));
    if d.lanza then Lanzo(archivos)
    else
      var rep := TrasReparacion(d.archivos, ruta, s.reparacion(titulo));
      match ExtraerCodigoPDF(rep.archivos, ruta, s.textoPdf(titulo))
      case Codigo(c) => Hecho(c, rep.archivos)
      case LecturaFallida => assert false; Lanzo(rep.archivos)
  }

  /**
   * `procesarModalYDesbloquear`: resolve the API challenge, submit its password, then read
   * the clipboard. Without a `contraseña:` match the password is the result and nothing is
   * downloaded; with one, the PDF is downloaded and repaired and the whole clipboard text
   * is the result. `fill` rejects an undefined password, so a failed resolution throws.
   */
  function ProcesarModal(s: Sitio, titulo: string, codigoAnterior: string, archivos: map<string, nat>): (r: Tramo)
    ensures var clave := ApiUtils.ResolucionDesafio(s.botonCopiar(titulo), s.endpoint(titulo), titulo, codigoAnterior, s.codificar, s.pedir);
      var texto := s.portapapeles(titulo);
      && (r.Hecho? <==> clave.Some? && s.modal(titulo) &&
                        (Patterns.ContrasenaEn(texto).Some? ==> s.espera(titulo) && !TrasDescarga(archivos, Ruta(titulo), s.descarga(titulo)).lanza))
      && (r.Hecho? && Patterns.ContrasenaEn(texto).None? ==> r == Hecho(clave, archivos))
      && (r.Hecho? && Patterns.ContrasenaEn(texto).Some? ==> r.codigo == Some(texto) && Ruta(titulo) in r.archivos)
      && (r.Hecho? && Patterns.ContrasenaEn(texto).Some? ==> Temporal(Ruta(titulo)) !in r.archivos)
      && (r.Lanzo? ==> r.archivos == archivos)
    ensures r.Hecho? ==> SoloCambia(archivos, r.archivos, Ruta(titulo))
  {
    var clave := ApiUtils.ResolucionDesafio(s.botonCopiar(titulo), s.endpoint(titulo), titulo, codigoAnterior, s.codificar, s.pedir);
    if !s.modal(titulo) || clave.None? then Lanzo(archivos)
    else
      var texto := s.portapapeles(titulo);
      if Patterns.ContrasenaEn(texto).None? then Hecho(clave, archivos)
      else if !s.espera(titulo) then Lanzo(archivos)
      else
        var ruta := Ruta(titulo);
        var d := TrasDescarga(archivos, ruta, s.descarga(titulo));
        if d.lanza then Lanzo(archivos)
        else Hecho(Some(texto), TrasReparacion(d.archivos, ruta, s.reparacion(titulo)).archivos)
  }

  /** The state the loop carries: `codigoActual`, `descargados`, the files, `procesadoAlMenosUno`. */
  datatype Estado = Estado(codigo: Option<string>, descargados: set<string>, archivos: map<string, nat>, progreso: bool)

  /** After visiting a record: the new state, or the exception that ends the call (with the files as they are). */
  datatype Salida = Sigue(estado: Estado) | Aborta(archivos: map<string, nat>)

  /** The files on disk after a visit. */
  function ArchivosDe(r: Salida): map<string, nat> {
    match r
    case Sigue(e) => e.archivos
    case Aborta(a) => a
  }

  /** One visit of the inner `for` loop. */
  function Paso(s: Sitio, e: Estado, m: Manuscrito): (r: Salida)
    ensures r.Sigue? ==> r.estado.descargados == e.descargados + {m.titulo}
    ensures r.Sigue? && r.estado.progreso ==> e.progreso || m.titulo !in e.descargados
    ensures r.Sigue? && !r.estado.progreso ==> !e.progreso
    ensures Despachar(m, e.codigo, e.descargados) in {Respaldo, Omitida} ==> r.Sigue? && r.estado.codigo == e.codigo
    ensures Despachar(m, e.codigo, e.descargados) in {Directa, ConCodigo} && r.Sigue? ==>
      r.estado.codigo == (if s.textoPdf(m.titulo).Some? then Patterns.CodigoDeAcceso(s.textoPdf(m.titulo).value) else None)
    ensures Despachar(m, e.codigo, e.descargados) == Desafio && r.Sigue? ==>
      ProcesarModal(s, m.titulo, e.codigo.value, e.archivos) == Hecho(r.estado.codigo, r.estado.archivos)
    ensures Despachar(m, e.codigo, e.descargados) == Omitida ==> r == Sigue(e)
    ensures Despachar(m, e.codigo, e.descargados) == Directa ==>
      (r.Sigue? <==> s.espera(m.titulo) && DescargaYCodigo(s, m.titulo, e.archivos).Hecho?)
    ensures Despachar(m, e.codigo, e.descargados) == ConCodigo ==>
      (r.Sigue? <==> s.desbloqueo(m.titulo) && s.espera(m.titulo) && DescargaYCodigo(s, m.titulo, e.archivos).Hecho?)
    ensures Despachar(m, e.codigo, e.descargados) == Desafio ==>
      (r.Sigue? <==> ProcesarModal(s, m.titulo, e.codigo.value, e.archivos).Hecho?)
    ensures Despachar(m, e.codigo, e.descargados) in {Directa, ConCodigo, Desafio} && r.Sigue? ==> r.estado.progreso
    ensures r.Aborta? ==> r.archivos == e.archivos
    ensures r.Sigue? ==> SoloCambia(e.archivos, r.estado.archivos, Ruta(m.titulo))
  {
    var t := m.titulo;
    var mas := e.descargados + {t};
    match Despachar(m, e.codigo, e.descargados)
    case Directa =>
      if !s.espera(t) then Aborta(e.archivos)
      else DeTramo(DescargaYCodigo(s, t, e.archivos), mas)
    case ConCodigo =>
      if !s.desbloqueo(t) || !s.espera(t) then Aborta(e.archivos)
      else DeTramo(DescargaYCodigo(s, t, e.archivos), mas)
    case Desafio =>
      DeTramo(ProcesarModal(s, t, e.codigo.value, e.archivos), mas)
    case Respaldo =>
      Sigue(Respaldar(s, t, e))
    case Omitida =>
      Sigue(e)
  }

  /**
   * A branch that ran to the end: its code replaces the current one and progress is noted.
   * What this means for a visit is stated on `Paso`.
   */
  function DeTramo(x: Tramo, descargados: set<string>): (r: Salida)
    ensures r.Sigue? <==> x.Hecho?
    ensures r.Sigue? ==> r.estado == Estado(x.codigo, descargados, x.archivos, true)
    ensures r.Aborta? ==> r.archivos == x.archivos
  {
    match x
    case Hecho(c, a) => Sigue(Estado(c, descargados, a, true))
    case Lanzo(a) => Aborta(a)
  }

  /**
   * The fallback: within a `try`, wait briefly for the download button, download, repair and
   * extract, discarding the code. The title is marked in every case; progress only when
   * nothing threw.
   */
  function Respaldar(s: Sitio, t: string, e: Estado): (r: Estado)
    ensures r.codigo == e.codigo && r.descargados == e.descargados + {t}
    ensures r.progreso <==> e.progreso || (s.respaldo(t) && !TrasDescarga(e.archivos, Ruta(t), s.descarga(t)).lanza)
    ensures !s.respaldo(t) || TrasDescarga(e.archivos, Ruta(t), s.descarga(t)).lanza ==> r.archivos == e.archivos
    ensures s.respaldo(t) && !TrasDescarga(e.archivos, Ruta(t), s.descarga(t)).lanza ==>
      Ruta(t) in r.archivos && Temporal(Ruta(t)) !in r.archivos
    ensures SoloCambia(e.archivos, r.archivos, Ruta(t))
  {
    var mas := e.descargados + {t};
    var ruta := Ruta(t);
    var d := TrasDescarga(e.archivos, ruta, s.descarga(t));
    if !s.respaldo(t) || d.lanza then Estado(e.codigo, mas, e.archivos, e.progreso)
    else
      var rep := TrasReparacion(d.archivos, ruta, s.reparacion(t));
      match ExtraerCodigoPDF(rep.archivos, ruta, s.textoPdf(t))
      case Codigo(_) => Estado(e.codigo, mas, rep.archivos, true)
      case LecturaFallida => assert false; Estado(e.codigo, mas, rep.archivos, e.progreso)
  }

  /** The inner `for` loop over the pending records. */
  function Barrido(s: Sitio, e: Estado, pendientes: seq<Manuscrito>): (r: Salida)
    ensures r.Sigue? ==> r.estado.descargados == e.descargados + Titulos(pendientes)
    ensures r.Sigue? && r.estado.progreso && !e.progreso ==> r.estado.descargados != e.descargados
    decreases |pendientes|
  {
    if pendientes == [] then Sigue(e)
    else
      match Paso(s, e, pendientes[0])
      case Aborta(a) => Aborta(a)
      case Sigue(e1) =>
        TitulosCabeza(pendientes);
        Barrido(s, e1, pendientes[1..])
  }

  lemma TitulosCabeza(p: seq<Manuscrito>)
    requires p != []
    ensures Titulos(p) == {p[0].titulo} + Titulos(p[1..])
  {
    forall u | u in Titulos(p[1..]) ensures u in Titulos(p) {
      var i :| 0 <= i < |p[1..]| && p[1..][i].titulo == u;
      assert p[i + 1].titulo == u;
    }
  }

  /** `manuscritos.filter((m) => !fs.existsSync(pdfPath))`. */
  function SinArchivo(lista: seq<Manuscrito>, archivos: map<string, nat>): (r: seq<Manuscrito>)
    ensures |r| <= |lista|
    ensures forall m :: m in r <==> m in lista && Ruta(m.titulo) !in archivos
    ensures Titulos(r) <= Titulos(lista)
  {
    if lista == [] then []
    else
      var resto := SinArchivo(lista[1..], archivos);
      assert forall m :: m in lista <==> m == lista[0] || m in lista[1..];
      if Ruta(lista[0].titulo) !in archivos then [lista[0]] + resto else resto
  }

  /** Lines 179-190: the deduplicated listing, sorted, without the records already on disk, sorted again. */
  function Pendientes(s: Sitio, n: nat, archivos: map<string, nat>): (r: seq<Manuscrito>)
    ensures OrdenadoPor(r, Rango)
    ensures forall m :: m in r ==> Ruta(m.titulo) !in archivos
  {
    var manuscritos := OrdenarManuscritosPorSiglo(Listing.Unicos(s.tarjetas(n)));
    var sin := SinArchivo(manuscritos, archivos);
    var r := OrdenarManuscritosPorSiglo(sin);
    MismosElementos(r, sin);
    r
  }

  lemma MismosElementos(a: seq<Manuscrito>, b: seq<Manuscrito>)
    requires multiset(a) == multiset(b)
    ensures forall m :: m in a ==> m in b
  {
    forall m | m in a ensures m in b {
      assert m in multiset(b);
    }
  }

  /** The result of `desbloquearTodos`: the code and set it ends with, or an exception. */
  datatype Resultado = Fin(codigo: Option<string>, descargados: set<string>) | Abortado

  /** A result together with the files on disk when the call returns. */
  datatype Final = Final(resultado: Resultado, archivos: map<string, nat>)

  /**
   * The `while (true)` loop from its n-th turn on. A turn that goes on has enlarged
   * `descargados` within the finite universe, which bounds the number of turns.
   */
  function Pasada(s: Sitio, n: nat, codigo: Option<string>, descargados: set<string>, archivos: map<string, nat>): (r: Final)
    requires SitioValido(s)
    ensures r.resultado.Fin? ==> descargados <= r.resultado.descargados
    decreases |s.universo - descargados|
  {
    var pendientes := Pendientes(s, n, archivos);
    if pendientes == [] then Final(Fin(codigo, descargados), archivos)
    else
      match Barrido(s, Estado(codigo, descargados, archivos, false), pendientes)
      case Aborta(a) => Final(Abortado, a)
      case Sigue(e) =>
        if !e.progreso then Final(Fin(e.codigo, e.descargados), e.archivos)
        else
          PendientesEnUniverso(s, n, archivos);
          Reduce(s.universo, descargados, e.descargados, Titulos(pendientes));
          Pasada(s, n + 1, e.codigo, e.descargados, e.archivos)
  }

  /** The pending titles come from the listing, hence from the universe. */
  lemma PendientesEnUniverso(s: Sitio, n: nat, archivos: map<string, nat>)
    requires SitioValido(s)
    ensures Titulos(Pendientes(s, n, archivos)) <= s.universo
  {
    var lista := s.tarjetas(n);
    var unicos := Listing.Unicos(lista);
    Listing.UnicosTitulos(lista);
    var manuscritos := OrdenarManuscritosPorSiglo(unicos);
    MismosTitulos(manuscritos, unicos);
    var sin := SinArchivo(manuscritos, archivos);
    MismosTitulos(OrdenarManuscritosPorSiglo(sin), sin);
  }

  /** Permutations have the same titles. */
  lemma MismosTitulos(a: seq<Manuscrito>, b: seq<Manuscrito>)
    requires multiset(a) == multiset(b)
    ensures Titulos(a) == Titulos(b)
  {
    forall t | t in Titulos(a) ensures t in Titulos(b) {
      var i :| 0 <= i < |a| && a[i].titulo == t;
      assert a[i] in multiset(b);
    }
    forall t | t in Titulos(b) ensures t in Titulos(a) {
      var i :| 0 <= i < |b| && b[i].titulo == t;
      assert b[i] in multiset(a);
    }
  }

  /** Adding at least one element of `u` to `a` shrinks what remains of `u`. */
  lemma Reduce(u: set<string>, a: set<string>, b: set<string>, nuevos: set<string>)
    requires a <= b <= a + nuevos && nuevos <= u && b != a
    ensures |u - b| < |u - a|
  {
    var x :| x in b && x !in a;
    assert u - b <= (u - a) - {x};
    assert |u - b| <= |(u - a) - {x}|
    by { Subconjunto(u - b, (u - a) - {x}); }
  }

  lemma Subconjunto(x: set<string>, y: set<string>)
    requires x <= y
    ensures |x| <= |y|
  {
    assert y == x + (y - x);
  }

  /** Every pending record is a record of the listing read on that turn. */
  lemma PendienteDeLista(s: Sitio, n: nat, archivos: map<string, nat>, m: Manuscrito)
    requires m in Pendientes(s, n, archivos)
    ensures m in s.tarjetas(n) && Ruta(m.titulo) !in archivos && m.titulo != ""
  {
    var unicos := Listing.Unicos(s.tarjetas(n));
    var manuscritos := OrdenarManuscritosPorSiglo(unicos);
    var sin := SinArchivo(manuscritos, archivos);
    EnOrdenado(sin, m);
    EnOrdenado(unicos, m);
    UnicoDeLista(s.tarjetas(n), m);
  }

  lemma EnOrdenado(a: seq<Manuscrito>, m: Manuscrito)
    requires m in OrdenarManuscritosPorSiglo(a)
    ensures m in a
  {
    assert m in multiset(OrdenarManuscritosPorSiglo(a));
  }

  lemma UnicoDeLista(lista: seq<Manuscrito>, m: Manuscrito)
    requires m in Listing.Unicos(lista)
    ensures m in lista && m.titulo != ""
  {
    Listing.UnicosTitulos(lista);
    var unicos := Listing.Unicos(lista);
    var j :| 0 <= j < |unicos| && unicos[j] == m;
  }

  /** A listing record with a title and no PDF on disk is pending. */
  lemma ListaPendiente(s: Sitio, n: nat, archivos: map<string, nat>, i: nat)
    requires i < |s.tarjetas(n)|
    requires s.tarjetas(n)[i].titulo != "" && Ruta(s.tarjetas(n)[i].titulo) !in archivos
    ensures exists m :: m in Pendientes(s, n, archivos) && m.titulo == s.tarjetas(n)[i].titulo
  {
    var lista := s.tarjetas(n);
    var t := lista[i].titulo;
    var unicos := Listing.Unicos(lista);
    Listing.UnicosTitulos(lista);
    assert t in Titulos(unicos);
    var j :| 0 <= j < |unicos| && unicos[j].titulo == t;
    var manuscritos := OrdenarManuscritosPorSiglo(unicos);
    assert unicos[j] in multiset(manuscritos);
    var sin := SinArchivo(manuscritos, archivos);
    assert unicos[j] in sin;
    assert unicos[j] in multiset(OrdenarManuscritosPorSiglo(sin));
  }

  /** Filtering keeps a sequence sorted. */
  lemma {:induction false} SinArchivoOrdenado(lista: seq<Manuscrito>, archivos: map<string, nat>, clave: Manuscrito -> nat)
    requires OrdenadoPor(lista, clave)
    ensures OrdenadoPor(SinArchivo(lista, archivos), clave)
  {
    if lista != [] {
      OrdenadoCola(lista, clave);
      SinArchivoOrdenado(lista[1..], archivos, clave);
      var resto := SinArchivo(lista[1..], archivos);
      CotaCola(lista, resto, clave);
      if Ruta(lista[0].titulo) !in archivos {
        OrdenadoCons(lista[0], resto, clave);
      }
    }
  }

  lemma CotaCola(lista: seq<Manuscrito>, resto: seq<Manuscrito>, clave: Manuscrito -> nat)
    requires lista != [] && OrdenadoPor(lista, clave)
    requires forall m :: m in resto ==> m in lista[1..]
    ensures forall i :: 0 <= i < |resto| ==> clave(lista[0]) <= clave(resto[i])
  {
    forall i | 0 <= i < |resto| ensures clave(lista[0]) <= clave(resto[i]) {
      assert resto[i] in resto;
      var j :| 0 <= j < |lista[1..]| && lista[1..][j] == resto[i];
      assert lista[j + 1] == resto[i];
    }
  }

  /**
   * The second sort at line 190 changes nothing: the pending records are the sorted
   * listing without the records on disk, in that order.
   */
  lemma SegundoOrdenSinEfecto(s: Sitio, n: nat, archivos: map<string, nat>)
    ensures Pendientes(s, n, archivos) == SinArchivo(OrdenarManuscritosPorSiglo(Listing.Unicos(s.tarjetas(n))), archivos)
    ensures OrdenadoPor(Pendientes(s, n, archivos), Rango)
  {
    var manuscritos := OrdenarManuscritosPorSiglo(Listing.Unicos(s.tarjetas(n)));
    SinArchivoOrdenado(manuscritos, archivos, Rango);
    OrdenarOrdenado(SinArchivo(manuscritos, archivos));
  }

  /** When every listed title already has its PDF on disk, the call returns at once and changes nothing. */
  lemma TodoEnDisco(s: Sitio, n: nat, codigo: Option<string>, descargados: set<string>, archivos: map<string, nat>)
    requires SitioValido(s)
    requires forall i :: 0 <= i < |s.tarjetas(n)| && s.tarjetas(n)[i].titulo != "" ==> Ruta(s.tarjetas(n)[i].titulo) in archivos
    ensures Pasada(s, n, codigo, descargados, archivos) == Final(Fin(codigo, descargados), archivos)
  {
    var p := Pendientes(s, n, archivos);
    if p != [] {
      PendienteDeLista(s, n, archivos, p[0]);
    }
  }

  /** The records of a sequence all satisfy a condition stated on the listing. */
  ghost predicate SinDescargaDirecta(s: Sitio) {
    forall n: nat, i :: 0 <= i < |s.tarjetas(n)| ==> !s.tarjetas(n)[i].botonBool
  }

  ghost predicate SinCodigoNiDesafio(s: Sitio) {
    forall n: nat, i :: 0 <= i < |s.tarjetas(n)| ==> !s.tarjetas(n)[i].inputBool && !s.tarjetas(n)[i].verDocBoll
  }

  /** A visit that takes none of the first three branches keeps the code. */
  lemma {:induction false} BarridoConservaCodigo(s: Sitio, e: Estado, p: seq<Manuscrito>)
    requires forall m :: m in p ==> !m.botonBool
    requires !Truthy(e.codigo) || forall m :: m in p ==> !m.inputBool && !m.verDocBoll
    ensures Barrido(s, e, p).Sigue? ==> Barrido(s, e, p).estado.codigo == e.codigo
    decreases |p|
  {
    if p != [] {
      var r := Paso(s, e, p[0]);
      assert p[0] in p;
      if r.Sigue? {
        assert r.estado.codigo == e.codigo;
        BarridoConservaCodigo(s, r.estado, p[1..]);
      }
    }
  }

  /**
   * `codigoActual` is returned unchanged when no branch that sets it can run: no record
   * offers a direct download, and either the code is falsy or no record has a code input
   * or a documentation button.
   */
  lemma {:induction false} CodigoSinCambios(s: Sitio, n: nat, codigo: Option<string>, descargados: set<string>, archivos: map<string, nat>)
    requires SitioValido(s) && SinDescargaDirecta(s)
    requires !Truthy(codigo) || SinCodigoNiDesafio(s)
    ensures Pasada(s, n, codigo, descargados, archivos).resultado.Fin? ==>
      Pasada(s, n, codigo, descargados, archivos).resultado.codigo == codigo
    decreases |s.universo - descargados|
  {
    var p := Pendientes(s, n, archivos);
    if p != [] {
      forall m | m in p ensures !m.botonBool && (!Truthy(codigo) || (!m.inputBool && !m.verDocBoll)) {
        PendienteDeLista(s, n, archivos, m);
      }
      var e0 := Estado(codigo, descargados, archivos, false);
      BarridoConservaCodigo(s, e0, p);
      var r := Barrido(s, e0, p);
      if r.Sigue? && r.estado.progreso {
        PendientesEnUniverso(s, n, archivos);
        Reduce(s.universo, descargados, r.estado.descargados, Titulos(p));
        CodigoSinCambios(s, n + 1, r.estado.codigo, r.estado.descargados, r.estado.archivos);
      }
    }
  }

  /**
   * With a falsy code, no direct download and every fallback failing, one turn marks all
   * pending titles, processes none, and the call returns after it with code and files
   * unchanged.
   */
  lemma UnaSolaVuelta(s: Sitio, n: nat, codigo: Option<string>, descargados: set<string>, archivos: map<string, nat>)
    requires SitioValido(s) && SinDescargaDirecta(s) && !Truthy(codigo)
    requires forall t :: !s.respaldo(t)
    ensures Pasada(s, n, codigo, descargados, archivos) ==
      Final(Fin(codigo, descargados + Titulos(Pendientes(s, n, archivos))), archivos)
  {
    var p := Pendientes(s, n, archivos);
    forall m | m in p ensures !m.botonBool {
      PendienteDeLista(s, n, archivos, m);
    }
    BarridoFallido(s, codigo, descargados, archivos, p);
  }

  lemma {:induction false} BarridoFallido(s: Sitio, codigo: Option<string>, descargados: set<string>, archivos: map<string, nat>, p: seq<Manuscrito>)
    requires !Truthy(codigo) && forall t :: !s.respaldo(t)
    requires forall m :: m in p ==> !m.botonBool
    ensures Barrido(s, Estado(codigo, descargados, archivos, false), p) ==
      Sigue(Estado(codigo, descargados + Titulos(p), archivos, false))
    decreases |p|
  {
    if p != [] {
      assert p[0] in p;
      TitulosCabeza(p);
      BarridoFallido(s, codigo, descargados + {p[0].titulo}, archivos, p[1..]);
      assert descargados + {p[0].titulo} + Titulos(p[1..]) == descargados + Titulos(p);
    } else {
      assert Titulos(p) == {};
    }
  }
}
