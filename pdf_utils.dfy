/**
 * src/scripts/pdfUtils.ts: the file-system effects of downloading and repairing a PDF, and
 * the code extraction. The file system is a map from path to file size; the browser's
 * download, the `gswin64c` subprocess and `pdf-parse` are oracle outcomes handed in as
 * parameters.
 */
module PdfUtils {
  import opened Wrappers
  import Patterns

  /**
   * What the download attempt produced: the size of the file `saveAs` wrote, or an
   * exception (the download event or the click failed, or a wait for the button timed out).
   */
  datatype Descarga = Guardado(tamano: nat) | Fallida

  /**
   * What `repararPDF` observed: whether `exec` reported no error, and the file the
   * subprocess left at the temporary path, if any, by size.
   */
  datatype Reparacion = Reparacion(exitoso: bool, temporal: Option<nat>)

  /** The outcome of `extraerCodigoPDF`: `readFileSync` threw, or the value it resolves to (null and undefined are both `None`). */
  datatype Extraccion = LecturaFallida | Codigo(valor: Option<string>)

  /** A file-system state and whether the operation threw. */
  datatype Efecto = Efecto(archivos: map<string, nat>, lanza: bool)

  /** A file-system state and the boolean the operation resolved to. */
  datatype Resolucion = Resolucion(archivos: map<string, nat>, valor: bool)

  /** A repaired file replaces the original only when it is larger than this many bytes. */
  const TamanoMinimo: nat := 1000

  /** The temporary output path of the repair. */
  function Temporal(ruta: string): (r: string)
    ensures |r| == |ruta| + 4 && r[..|ruta|] == ruta && r[|ruta|..] == ".tmp"
  {
    ruta + ".tmp"
  }

  /**
   * `descargarPDF`: when the path exists nothing happens; otherwise the download either
   * stores a file at the path or throws, leaving the file system as it was.
   */
  function TrasDescarga(archivos: map<string, nat>, ruta: string, d: Descarga): (r: Efecto)
    ensures ruta in archivos ==> r == Efecto(archivos, false)
    ensures r.lanza <==> ruta !in archivos && d.Fallida?
    ensures !r.lanza ==> ruta in r.archivos
    ensures r.lanza ==> r.archivos == archivos
    ensures forall q :: q != ruta ==> (q in r.archivos <==> q in archivos) && (q in archivos ==> r.archivos[q] == archivos[q])
  {
    if ruta in archivos then Efecto(archivos, false)
    else match d
      case Guardado(n) => Efecto(archivos[ruta := n], false)
      case Fallida => Efecto(archivos, true)
  }

  /** The file system right after the subprocess ran: the temporary path holds what it left there. */
  function TrasSubproceso(archivos: map<string, nat>, ruta: string, rep: Reparacion): (r: map<string, nat>)
    ensures Temporal(ruta) in r <==> rep.temporal.Some?
    ensures rep.temporal.Some? ==> r[Temporal(ruta)] == rep.temporal.value
    ensures forall q :: q != Temporal(ruta) ==> (q in r <==> q in archivos) && (q in archivos ==> r[q] == archivos[q])
  {
    match rep.temporal
    case Some(n) => archivos[Temporal(ruta) := n]
    case None => archivos - {Temporal(ruta)}
  }

  /**
   * `repararYReemplazarPDF`: the original is replaced by the repaired copy, and the result
   * is `true`, exactly when the repair succeeded, the temporary file exists and it is larger
   * than `TamanoMinimo`; otherwise the temporary file is removed and the original kept.
   */
  function TrasReparacion(archivos: map<string, nat>, ruta: string, rep: Reparacion): (r: Resolucion)
    ensures r.valor <==> rep.exitoso && rep.temporal.Some? && rep.temporal.value > TamanoMinimo
    ensures Temporal(ruta) !in r.archivos
    ensures r.valor ==> ruta in r.archivos && r.archivos[ruta] == rep.temporal.value
    ensures !r.valor ==> (ruta in r.archivos <==> ruta in archivos) && (ruta in archivos ==> r.archivos[ruta] == archivos[ruta])
    ensures forall q :: q != ruta && q != Temporal(ruta) ==> (q in r.archivos <==> q in archivos) && (q in archivos ==> r.archivos[q] == archivos[q])
  {
    var tmp := Temporal(ruta);
    assert tmp != ruta by { assert |tmp| != |ruta|; }
    var intermedio := TrasSubproceso(archivos, ruta, rep);
    if rep.exitoso && tmp in intermedio && intermedio[tmp] > TamanoMinimo then
      Resolucion(intermedio[ruta := intermedio[tmp]] - {tmp}, true)
    else
      Resolucion(intermedio - {tmp}, false)
  }

  /**
   * `extraerCodigoPDF`: reading a missing file throws; a text `pdf-parse` could not produce
   * (`None`) resolves to undefined; otherwise the access code of the text, or null. Which code
   * that is, is stated by `Patterns.BuscarEsLaPrimera` and `Patterns.BuscarAlInicio`; that the
   * read after a download does not throw, by `LecturaTrasDescarga`.
   */
  function ExtraerCodigoPDF(archivos: map<string, nat>, ruta: string, texto: Option<string>): (r: Extraccion)
    ensures r.LecturaFallida? <==> ruta !in archivos
    ensures r.Codigo? && r.valor.Some? ==> texto.Some? && r.valor == Patterns.CodigoDeAcceso(texto.value)
    ensures texto.None? && ruta in archivos ==> r == Codigo(None)
    ensures ruta in archivos && texto.Some? ==> r == Codigo(Patterns.CodigoDeAcceso(texto.value))
  {
    if ruta !in archivos then LecturaFallida
    else if texto.None? then Codigo(None)
    else Codigo(Patterns.CodigoDeAcceso(texto.value))
  }

  /** A download that did not throw leaves a file that a second download leaves alone, whatever its outcome. */
  lemma DescargaIdempotente(archivos: map<string, nat>, ruta: string, d1: Descarga, d2: Descarga)
    requires !TrasDescarga(archivos, ruta, d1).lanza
    ensures TrasDescarga(TrasDescarga(archivos, ruta, d1).archivos, ruta, d2) == TrasDescarga(archivos, ruta, d1)
  {
  }

  /** After a download that did not throw and a repair, whatever its outcome, the file is there to be read. */
  lemma LecturaTrasDescarga(archivos: map<string, nat>, ruta: string, d: Descarga, rep: Reparacion, texto: Option<string>)
    requires !TrasDescarga(archivos, ruta, d).lanza
    ensures ExtraerCodigoPDF(TrasReparacion(TrasDescarga(archivos, ruta, d).archivos, ruta, rep).archivos, ruta, texto).Codigo?
  {
  }

  /** The files of a downloads directory: paths mapped to sizes. */
  class Archivos {
    var tamanos: map<string, nat>

    constructor(inicial: map<string, nat>)
      ensures tamanos == inicial
    {
      tamanos := inicial;
    }

    /** `descargarPDF`; `lanza` reports the exception the download raised. */
    method DescargarPDF(ruta: string, d: Descarga) returns (lanza: bool)
      modifies this
      ensures Efecto(tamanos, lanza) == TrasDescarga(old(tamanos), ruta, d)
    {
      lanza := false;
      if ruta !in tamanos {
        match d
        case Guardado(n) =>
          tamanos := tamanos[ruta := n];
        case Fallida =>
          lanza := true;
      }
    }

    /** `repararYReemplazarPDF`. */
    method RepararYReemplazarPDF(ruta: string, rep: Reparacion) returns (reemplazado: bool)
      modifies this
      ensures Resolucion(tamanos, reemplazado) == TrasReparacion(old(tamanos), ruta, rep)
    {
      var tmp := ruta + ".tmp";
      match rep.temporal {
        case Some(n) => tamanos := tamanos[tmp := n];
        case None => tamanos := tamanos - {tmp};
      }
      if rep.exitoso && tmp in tamanos && tamanos[tmp] > TamanoMinimo {
        tamanos := tamanos[ruta := tamanos[tmp]] - {tmp};
        reemplazado := true;
      } else {
        if tmp in tamanos {
          tamanos := tamanos - {tmp};
        }
        reemplazado := false;
      }
    }

    /** `extraerCodigoPDF` on the file at `ruta`, given what `pdf-parse` makes of it. */
    method ExtraerCodigo(ruta: string, texto: Option<string>) returns (r: Extraccion)
      ensures r == ExtraerCodigoPDF(tamanos, ruta, texto)
    {
      if ruta !in tamanos {
        r := LecturaFallida;
      } else {
        match texto
        case None =>
          r := Codigo(None);
        case Some(t) =>
          r := Codigo(Patterns.CodigoDeAcceso(t));
      }
    }
  }
}
