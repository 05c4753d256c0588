/**
 * `desbloquearTodasLasPaginas` of src/scripts/manuscritos.ts: for each page number the
 * listing shows, navigate to it when it is above 1, then run the unlock pass with a fresh
 * set of processed titles and the code the previous page ended with.
 */
module Pages {
  import opened Wrappers
  import opened Unlock
  import UnlockProcedure
  import Listing
  import opened PdfUtils

  /**
   * What one entry of the page list answers: whether `irAPagina` completes (its waits do not
   * time out; a missing button is a completed no-op), and the site as seen from that page.
   */
  datatype Pagina = Pagina(navegacion: bool, sitio: Sitio)

  /**
   * The pages navigated to, in order; the last code; whether an exception ended the driver;
   * the files on disk at the end.
   */
  datatype Recorrido = Recorrido(navegadas: seq<nat>, codigo: Option<string>, abortado: bool, archivos: map<string, nat>)

  ghost predicate PaginasValidas(paginas: seq<nat>, sitios: seq<Pagina>) {
    |sitios| == |paginas| && forall k :: 0 <= k < |sitios| ==> SitioValido(sitios[k].sitio)
  }

  /** The page numbers above 1, in order: those the driver navigates to. */
  function MayoresQueUno(paginas: seq<nat>): (r: seq<nat>)
    ensures |r| <= |paginas|
    ensures forall x :: x in r <==> x in paginas && x > 1
  {
    if paginas == [] then []
    else (if paginas[0] > 1 then [paginas[0]] else []) + MayoresQueUno(paginas[1..])
  }

  lemma ValidasCola(paginas: seq<nat>, sitios: seq<Pagina>)
    requires PaginasValidas(paginas, sitios) && paginas != []
    ensures SitioValido(sitios[0].sitio) && PaginasValidas(paginas[1..], sitios[1..])
  {
    forall k | 0 <= k < |sitios[1..]| ensures SitioValido(sitios[1..][k].sitio) {
      assert sitios[1..][k] == sitios[k + 1];
    }
  }

  lemma ValidasConcatena(p1: seq<nat>, s1: seq<Pagina>, p2: seq<nat>, s2: seq<Pagina>)
    requires PaginasValidas(p1, s1) && PaginasValidas(p2, s2)
    ensures PaginasValidas(p1 + p2, s1 + s2)
  {
    forall k | 0 <= k < |s1 + s2| ensures SitioValido((s1 + s2)[k].sitio) {
      if k < |s1| {
        assert (s1 + s2)[k] == s1[k];
      } else {
        assert (s1 + s2)[k] == s2[k - |s1|];
      }
    }
  }

  lemma ValidasDesde(paginas: seq<nat>, sitios: seq<Pagina>, k: nat)
    requires PaginasValidas(paginas, sitios) && k <= |paginas|
    ensures PaginasValidas(paginas[k..], sitios[k..])
  {
    forall j | 0 <= j < |sitios[k..]| ensures SitioValido(sitios[k..][j].sitio) {
      assert sitios[k..][j] == sitios[k + j];
    }
  }

  /** Prepends what earlier pages did to the outcome of the remaining ones. */
  function Tras(navegadas: seq<nat>, r: Recorrido): Recorrido {
    Recorrido(navegadas + r.navegadas, r.codigo, r.abortado, r.archivos)
  }

  /**
   * One entry of the page list: `irAPagina` for pages above 1, then `desbloquearTodos` with
   * a new empty set and the code so far.
   */
  function EnPagina(pag: nat, pg: Pagina, codigo: Option<string>, archivos: map<string, nat>): (r: Final)
    requires SitioValido(pg.sitio)
    ensures pag > 1 && !pg.navegacion ==> r == Final(Abortado, archivos)
    ensures pag <= 1 || pg.navegacion ==> r == Pasada(pg.sitio, 0, codigo, {}, archivos)
    ensures r.resultado.Fin? ==> pag <= 1 || pg.navegacion
  {
    if pag > 1 && !pg.navegacion then Final(Abortado, archivos)
    else Pasada(pg.sitio, 0, codigo, {}, archivos)
  }

  /** The `for` loop over the pages from the given one on. */
  function Recorrer(paginas: seq<nat>, sitios: seq<Pagina>, codigo: Option<string>, archivos: map<string, nat>): (r: Recorrido)
    requires PaginasValidas(paginas, sitios)
    ensures |r.navegadas| <= |paginas|
    ensures paginas == [] ==> r == Recorrido([], codigo, false, archivos)
  {
    if paginas == [] then Recorrido([], codigo, false, archivos)
    else
      ValidasCola(paginas, sitios);
      var navegadas := if paginas[0] > 1 then [paginas[0]] else [];
      var f := EnPagina(paginas[0], sitios[0], codigo, archivos);
      match f.resultado
      case Abortado => Recorrido(navegadas, codigo, true, f.archivos)
      case Fin(c, _) => Tras(navegadas, Recorrer(paginas[1..], sitios[1..], c, f.archivos))
  }

  lemma TrasTras(x: seq<nat>, y: seq<nat>, r: Recorrido)
    ensures Tras(x, Tras(y, r)) == Tras(x + y, r)
  {
    assert x + (y + r.navegadas) == x + y + r.navegadas;
  }

  /** Whether or not an exception ends it, the driver only ever navigates to pages above 1. */
  lemma {:induction false} NavegaSoloMayores(paginas: seq<nat>, sitios: seq<Pagina>, codigo: Option<string>, archivos: map<string, nat>)
    requires PaginasValidas(paginas, sitios)
    ensures forall x :: x in Recorrer(paginas, sitios, codigo, archivos).navegadas ==> x in paginas && x > 1
  {
    if paginas != [] {
      ValidasCola(paginas, sitios);
      var f := EnPagina(paginas[0], sitios[0], codigo, archivos);
      if f.resultado.Fin? {
        NavegaSoloMayores(paginas[1..], sitios[1..], f.resultado.codigo, f.archivos);
        assert forall x :: x in paginas[1..] ==> x in paginas;
      }
    }
  }

  /** Without an exception the driver navigates to exactly the pages above 1, in order. */
  lemma {:induction false} NavegaMayoresQueUno(paginas: seq<nat>, sitios: seq<Pagina>, codigo: Option<string>, archivos: map<string, nat>)
    requires PaginasValidas(paginas, sitios)
    requires !Recorrer(paginas, sitios, codigo, archivos).abortado
    ensures Recorrer(paginas, sitios, codigo, archivos).navegadas == MayoresQueUno(paginas)
  {
    if paginas != [] {
      ValidasCola(paginas, sitios);
      var f := EnPagina(paginas[0], sitios[0], codigo, archivos);
      NavegaMayoresQueUno(paginas[1..], sitios[1..], f.resultado.codigo, f.archivos);
    }
  }

  /**
   * Running over two runs of pages in a row is running over the first and, unless it threw,
   * over the second from the code and files the first left: the code is threaded through.
   */
  lemma {:induction false} RecorrerConcatena(p1: seq<nat>, s1: seq<Pagina>, p2: seq<nat>, s2: seq<Pagina>,
                                             codigo: Option<string>, archivos: map<string, nat>)
    requires PaginasValidas(p1, s1) && PaginasValidas(p2, s2)
    ensures PaginasValidas(p1 + p2, s1 + s2)
    ensures var r1 := Recorrer(p1, s1, codigo, archivos);
      Recorrer(p1 + p2, s1 + s2, codigo, archivos) ==
        if r1.abortado then r1 else Tras(r1.navegadas, Recorrer(p2, s2, r1.codigo, r1.archivos))
  {
    ValidasConcatena(p1, s1, p2, s2);
    if p1 == [] {
      assert p1 + p2 == p2 && s1 + s2 == s2;
    } else {
      ValidasCola(p1, s1);
      var p, s := p1 + p2, s1 + s2;
      assert p[0] == p1[0] && s[0] == s1[0] && p[1..] == p1[1..] + p2 && s[1..] == s1[1..] + s2;
      var f := EnPagina(p1[0], s1[0], codigo, archivos);
      if f.resultado.Fin? {
        RecorrerConcatena(p1[1..], s1[1..], p2, s2, f.resultado.codigo, f.archivos);
        var r1 := Recorrer(p1[1..], s1[1..], f.resultado.codigo, f.archivos);
        TrasTras(if p1[0] > 1 then [p1[0]] else [], r1.navegadas, Recorrer(p2, s2, r1.codigo, r1.archivos));
      }
    }
  }

  /** One step of `Recorrer` taken at the k-th page. */
  lemma RecorrerPaso(paginas: seq<nat>, sitios: seq<Pagina>, k: nat, codigo: Option<string>, archivos: map<string, nat>)
    requires PaginasValidas(paginas, sitios) && k < |paginas|
    ensures SitioValido(sitios[k].sitio) && PaginasValidas(paginas[k + 1..], sitios[k + 1..])
    ensures var f := EnPagina(paginas[k], sitios[k], codigo, archivos);
      var navegadas := if paginas[k] > 1 then [paginas[k]] else [];
      Recorrer(paginas[k..], sitios[k..], codigo, archivos) ==
        if f.resultado.Abortado? then Recorrido(navegadas, codigo, true, f.archivos)
        else Tras(navegadas, Recorrer(paginas[k + 1..], sitios[k + 1..], f.resultado.codigo, f.archivos))
  {
    ValidasDesde(paginas, sitios, k);
    ValidasCola(paginas[k..], sitios[k..]);
    assert paginas[k..][1..] == paginas[k + 1..] && sitios[k..][1..] == sitios[k + 1..];
  }

  /** One entry of the page list: navigation when above 1, then the unlock pass. */
  method VisitarPagina(pag: nat, pg: Pagina, archivos: Archivos, codigo: Option<string>) returns (r: Resultado)
    requires SitioValido(pg.sitio)
    modifies archivos
    ensures Final(r, archivos.tamanos) == EnPagina(pag, pg, codigo, old(archivos.tamanos))
  {
    if pag > 1 && !pg.navegacion {
      return Abortado;
    }
    r := UnlockProcedure.DesbloquearTodos(pg.sitio, archivos, {}, codigo);
  }

  /**
   * One turn of the `for` loop over the pages: it appends the page to those navigated to when
   * above 1 and runs the page, keeping what `Recorrer` says is left to do.
   */
  method PasoPagina(paginas: seq<nat>, sitios: seq<Pagina>, k: nat, archivos: Archivos,
                    navegadas: seq<nat>, codigo: Option<string>)
    returns (navegadas': seq<nat>, codigo': Option<string>, abortado: bool)
    requires PaginasValidas(paginas, sitios) && k < |paginas|
    modifies archivos
    ensures PaginasValidas(paginas[k + 1..], sitios[k + 1..])
    ensures var antes := Tras(navegadas, Recorrer(paginas[k..], sitios[k..], codigo, old(archivos.tamanos)));
      if abortado then Recorrido(navegadas', codigo', true, archivos.tamanos) == antes
      else Tras(navegadas', Recorrer(paginas[k + 1..], sitios[k + 1..], codigo', archivos.tamanos)) == antes
  {
    RecorrerPaso(paginas, sitios, k, codigo, archivos.tamanos);
    var pag := paginas[k];
    ghost var nav := if pag > 1 then [pag] else [];
    var r := VisitarPagina(pag, sitios[k], archivos, codigo);
    navegadas' := navegadas;
    if pag > 1 {
      navegadas' := navegadas' + [pag];
    }
    assert navegadas' == navegadas + nav;
    codigo' := codigo;
    abortado := r.Abortado?;
    if !abortado {
      codigo' := r.codigo;
      TrasTras(navegadas, nav, Recorrer(paginas[k + 1..], sitios[k + 1..], codigo', archivos.tamanos));
    }
  }

  /** The `for` loop of `desbloquearTodasLasPaginas` over the page numbers read. */
  method RecorrerPaginas(paginas: seq<nat>, sitios: seq<Pagina>, archivos: Archivos)
    returns (navegadas: seq<nat>, ultimoCodigo: Option<string>, abortado: bool)
    requires PaginasValidas(paginas, sitios)
    modifies archivos
    ensures Recorrido(navegadas, ultimoCodigo, abortado, archivos.tamanos) ==
      Recorrer(paginas, sitios, None, old(archivos.tamanos))
  {
    ultimoCodigo := None;
    navegadas := [];
    abortado := false;
    var k := 0;
    assert paginas[0..] == paginas && sitios[0..] == sitios;
    while k < |paginas|
      invariant k <= |paginas|
      invariant PaginasValidas(paginas[k..], sitios[k..])
      invariant Tras(navegadas, Recorrer(paginas[k..], sitios[k..], ultimoCodigo, archivos.tamanos)) ==
        Recorrer(paginas, sitios, None, old(archivos.tamanos))
    {
      navegadas, ultimoCodigo, abortado := PasoPagina(paginas, sitios, k, archivos, navegadas, ultimoCodigo);
      if abortado {
        return;
      }
      k := k + 1;
    }
    assert paginas[k..] == [];
    assert navegadas + [] == navegadas;
  }

  /**
   * `desbloquearTodasLasPaginas`, given the texts `obtenerPaginas` reads and what each
   * page answers. It returns the pages navigated to, the last code and whether it threw.
   */
  method DesbloquearTodasLasPaginas(textos: seq<string>, sitios: seq<Pagina>, archivos: Archivos)
    returns (navegadas: seq<nat>, ultimoCodigo: Option<string>, abortado: bool)
    requires PaginasValidas(Listing.ObtenerPaginas(textos), sitios)
    modifies archivos
    ensures Recorrido(navegadas, ultimoCodigo, abortado, archivos.tamanos) ==
      Recorrer(Listing.ObtenerPaginas(textos), sitios, None, old(archivos.tamanos))
  {
    var paginas := Listing.ObtenerPaginas(textos);
    navegadas, ultimoCodigo, abortado := RecorrerPaginas(paginas, sitios, archivos);
  }
}
