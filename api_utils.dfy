/**
 * src/scripts/apiUtils.ts: assembling the challenge code from the API's answer, building the
 * request URL and the error handling of `resolverDesafioApi`. The clipboard, the HTTP
 * transport and `encodeURIComponent` are parameters.
 */
module ApiUtils {
  import opened Wrappers
  import JsStrings

  /** `vault[idx]` as `join` renders it: a missing entry (out of range, negative) is the empty string. */
  function Elemento(vault: seq<string>, idx: int): (r: string)
    ensures 0 <= idx < |vault| ==> r == vault[idx]
    ensures !(0 <= idx < |vault|) ==> r == ""
  {
    if 0 <= idx < |vault| then vault[idx] else ""
  }

  /** `obtenerCodigo`: `targets.map((idx) => vault[idx]).join("")`. */
  function ObtenerCodigo(vault: seq<string>, targets: seq<int>): (r: string)
    ensures targets == [] ==> r == ""
  {
    if targets == [] then "" else Elemento(vault, targets[0]) + ObtenerCodigo(vault, targets[1..])
  }

  /** The total length of the selected entries. */
  function LargoSeleccion(vault: seq<string>, targets: seq<int>): nat {
    if targets == [] then 0 else |Elemento(vault, targets[0])| + LargoSeleccion(vault, targets[1..])
  }

  /** The code of a concatenation of target lists is the concatenation of their codes. */
  lemma {:induction false} ObtenerCodigoConcatena(vault: seq<string>, a: seq<int>, b: seq<int>)
    ensures ObtenerCodigo(vault, a + b) == ObtenerCodigo(vault, a) + ObtenerCodigo(vault, b)
  {
    if a != [] {
      assert (a + b)[0] == a[0] && (a + b)[1..] == a[1..] + b;
      ObtenerCodigoConcatena(vault, a[1..], b);
      JsStrings.Asociativa(Elemento(vault, a[0]), ObtenerCodigo(vault, a[1..]), ObtenerCodigo(vault, b));
    } else {
      assert a + b == b;
    }
  }

  /** The code is as long as the selected entries together. */
  lemma {:induction false} ObtenerCodigoLargo(vault: seq<string>, targets: seq<int>)
    ensures |ObtenerCodigo(vault, targets)| == LargoSeleccion(vault, targets)
  {
    if targets != [] {
      ObtenerCodigoLargo(vault, targets[1..]);
    }
  }

  /** The code is `vault[targets[k]]` for each `k` in order: entry `k` sits between the entries before and after it. */
  lemma ObtenerCodigoPosicional(vault: seq<string>, targets: seq<int>, k: nat)
    requires k < |targets|
    ensures ObtenerCodigo(vault, targets) ==
      ObtenerCodigo(vault, targets[..k]) + Elemento(vault, targets[k]) + ObtenerCodigo(vault, targets[k + 1..])
  {
    var resto := [targets[k]] + targets[k + 1..];
    assert targets == targets[..k] + resto;
    ObtenerCodigoConcatena(vault, targets[..k], resto);
    UnoDelante(vault, targets[k], targets[k + 1..]);
    JsStrings.Asociativa(ObtenerCodigo(vault, targets[..k]), Elemento(vault, targets[k]), ObtenerCodigo(vault, targets[k + 1..]));
  }

  lemma UnoDelante(vault: seq<string>, idx: int, b: seq<int>)
    ensures ObtenerCodigo(vault, [idx] + b) == Elemento(vault, idx) + ObtenerCodigo(vault, b)
  {
    assert ([idx] + b)[0] == idx && ([idx] + b)[1..] == b;
  }

  /** An index the vault does not have contributes nothing. */
  lemma IndiceAusente(vault: seq<string>, a: seq<int>, idx: int, b: seq<int>)
    requires !(0 <= idx < |vault|)
    ensures ObtenerCodigo(vault, a + [idx] + b) == ObtenerCodigo(vault, a + b)
  {
    assert a + [idx] + b == a + ([idx] + b);
    ObtenerCodigoConcatena(vault, a, [idx] + b);
    UnoDelante(vault, idx, b);
    assert Elemento(vault, idx) + ObtenerCodigo(vault, b) == ObtenerCodigo(vault, b);
    ObtenerCodigoConcatena(vault, a, b);
  }

  /** The vault `["A","B","C","D"]` with targets `[2,0,3]` gives `"CAD"`. */
  lemma EjemploCad()
    ensures ObtenerCodigo(["A", "B", "C", "D"], [2, 0, 3]) == "CAD"
  {
    var v := ["A", "B", "C", "D"];
    assert [2, 0, 3][1..] == [0, 3] && [0, 3][1..] == [3] && [3][1..] == [];
  }

  /** `res.data?.challenge`: each of `vault` and `targets` may be missing. */
  datatype Reto = Reto(vault: Option<seq<string>>, targets: Option<seq<int>>)

  /**
   * `obtenerCodigo(data?.challenge?.vault, data?.challenge?.targets)`; `None` when it throws a
   * `TypeError` (no `targets` to map over, or indices into a missing `vault`).
   */
  function CodigoDe(reto: Option<Reto>): (r: Option<string>)
    ensures reto.None? || reto.value.targets.None? ==> r.None?
    ensures reto.Some? && reto.value.targets == Some([]) ==> r == Some("")
    ensures reto.Some? && reto.value.vault.Some? && reto.value.targets.Some? ==>
      r == Some(ObtenerCodigo(reto.value.vault.value, reto.value.targets.value))
    ensures reto.Some? && reto.value.vault.None? && reto.value.targets.Some? && reto.value.targets.value != [] ==> r.None?
  {
    if reto.None? || reto.value.targets.None? then None
    else if reto.value.targets.value == [] then Some("")
    else if reto.value.vault.None? then None
    else Some(ObtenerCodigo(reto.value.vault.value, reto.value.targets.value))
  }

  /** `endpoint.includes("?") ? "&" : "?"`. */
  function Separador(endpoint: string): string {
    if '?' in endpoint then "&" else "?"
  }

  /** The request URL: the endpoint, the separator, then the two encoded parameters. */
  function ConstruirUrl(endpoint: string, tituloCodificado: string, codigoCodificado: string): (r: string)
    ensures |endpoint| < |r| && r[..|endpoint|] == endpoint
  {
    endpoint + Separador(endpoint) + Parametros(tituloCodificado, codigoCodificado)
  }

  /** The two parameters the resolver appends. */
  function Parametros(tituloCodificado: string, codigoCodificado: string): (r: string)
    ensures |r| == 22 + |tituloCodificado| + |codigoCodificado|
    ensures r[..10] == "bookTitle=" && r[|r| - |codigoCodificado|..] == codigoCodificado
  {
    "bookTitle=" + tituloCodificado + "&unlockCode=" + codigoCodificado
  }

  /** With `&` and `#` escaped, the parameters are two fields and hold no fragment. */
  lemma CamposDeParametros(t: string, c: string)
    requires '&' !in t && '#' !in t && '&' !in c && '#' !in c
    ensures '#' !in Parametros(t, c)
    ensures Campos(Parametros(t, c)) == ["bookTitle=" + t, "unlockCode=" + c]
  {
    var primero, segundo := "bookTitle=" + t, "unlockCode=" + c;
    SinSeparadores("bookTitle=", t);
    SinSeparadores("unlockCode=", c);
    assert Parametros(t, c) == Unir(primero, segundo);
    CamposConcatena(primero, segundo);
    CamposSolo(primero);
    CamposSolo(segundo);
  }

  lemma SinSeparadores(nombre: string, valor: string)
    requires '&' !in nombre && '#' !in nombre && '&' !in valor && '#' !in valor
    ensures '&' !in nombre + valor && '#' !in nombre + valor
  {
  }

  /** The position of the first `c` in `s`, if any. */
  function Primero(s: string, c: char): (r: Option<nat>)
    ensures r.None? <==> c !in s
    ensures r.Some? ==> r.value < |s| && s[r.value] == c && c !in s[..r.value]
  {
    if s == [] then None
    else if s[0] == c then Some(0)
    else match Primero(s[1..], c)
      case None => None
      case Some(i) =>
        assert s[..i + 1] == [s[0]] + s[1..][..i];
        Some(i + 1)
  }

  /** The query component in the sense of section 3.4 of RFC 3986: after the first `?`, up to a `#`. */
  function Consulta(url: string): (r: Option<string>)
    ensures r.Some? ==> '#' !in r.value
  {
    match Primero(url, '?')
    case None => None
    case Some(i) =>
      var resto := url[i + 1..];
      match Primero(resto, '#')
      case None => Some(resto)
      case Some(j) => Some(resto[..j])
  }

  /** `s.split("&")`. */
  function Campos(s: string): (r: seq<string>)
    ensures |r| > 0
  {
    match Primero(s, '&')
    case None => [s]
    case Some(i) => [s[..i]] + Campos(s[i + 1..])
  }

  /** Splitting at a separator between two texts splits each of them. */
  lemma {:induction false} CamposConcatena(a: string, b: string)
    ensures Campos(Unir(a, b)) == Campos(a) + Campos(b)
    decreases |a|
  {
    var s := Unir(a, b);
    match Primero(a, '&')
    case None =>
      UnirEnSeparador(a, b);
      CamposEn(s, |a|);
    case Some(i) =>
      UnirAntes(a, b, i);
      CamposEn(s, i);
      CamposEn(a, i);
      CamposConcatena(a[i + 1..], b);
      JsStrings.Asociativa([a[..i]], Campos(a[i + 1..]), Campos(b));
  }

  /** `a + "&" + b`. */
  function Unir(a: string, b: string): (r: string)
    ensures |r| == |a| + 1 + |b|
  {
    a + ['&'] + b
  }

  lemma UnirEnSeparador(a: string, b: string)
    ensures Unir(a, b)[|a|] == '&' && Unir(a, b)[..|a|] == a && Unir(a, b)[|a| + 1..] == b
  {
  }

  lemma UnirAntes(a: string, b: string, i: nat)
    requires i < |a|
    ensures Unir(a, b)[i] == a[i] && Unir(a, b)[..i] == a[..i] && Unir(a, b)[i + 1..] == Unir(a[i + 1..], b)
  {
  }

  /** The first field ends at the first separator. */
  lemma CamposEn(s: string, k: nat)
    requires k < |s| && s[k] == '&' && '&' !in s[..k]
    ensures Campos(s) == [s[..k]] + Campos(s[k + 1..])
  {
    PrimeroEn(s, '&', k);
  }

  /** `Primero` finds the first occurrence. */
  lemma PrimeroEn(s: string, c: char, k: nat)
    requires k < |s| && s[k] == c && c !in s[..k]
    ensures Primero(s, c) == Some(k)
  {
    var r := Primero(s, c).value;
    assert forall j :: 0 <= j < k ==> s[..k][j] == s[j];
    assert forall j :: 0 <= j < r ==> s[..r][j] == s[j];
  }

  lemma SinEnCola(s: string, c: char, i: nat)
    requires c !in s && i <= |s|
    ensures c !in s[i..]
  {
    assert forall j :: 0 <= j < |s| - i ==> s[i..][j] == s[i + j];
  }

  /**
   * The URL's query holds the endpoint's own fields, if it had a query, followed by
   * `bookTitle` and `unlockCode`, when the endpoint has no fragment and the encoder
   * escaped `&` and `#`.
   */
  lemma ConsultaDeUrl(endpoint: string, t: string, c: string)
    requires '#' !in endpoint && '&' !in t && '#' !in t && '&' !in c && '#' !in c
    ensures Consulta(ConstruirUrl(endpoint, t, c)).Some?
    ensures '?' in endpoint ==> Consulta(endpoint).Some?
    ensures Campos(Consulta(ConstruirUrl(endpoint, t, c)).value) ==
      (if '?' in endpoint then Campos(Consulta(endpoint).value) else []) + ["bookTitle=" + t, "unlockCode=" + c]
  {
    var param := Parametros(t, c);
    CamposDeParametros(t, c);
    if '?' in endpoint {
      ConsultaConQuery(endpoint, param);
      CamposConcatena(Consulta(endpoint).value, param);
      assert Unir(Consulta(endpoint).value, param) == Consulta(endpoint).value + "&" + param;
    } else {
      ConsultaSinQuery(endpoint, param);
    }
  }

  lemma CamposSolo(s: string)
    requires '&' !in s
    ensures Campos(s) == [s]
  {
  }

  lemma ConsultaSinQuery(endpoint: string, param: string)
    requires '?' !in endpoint && '#' !in param
    ensures Consulta(endpoint + "?" + param) == Some(param)
  {
    var url := endpoint + "?" + param;
    assert url[..|endpoint|] == endpoint && url[|endpoint|] == '?';
    PrimeroEn(url, '?', |endpoint|);
    assert url[|endpoint| + 1..] == param;
  }

  lemma ConsultaConQuery(endpoint: string, param: string)
    requires '?' in endpoint && '#' !in endpoint && '#' !in param
    ensures Consulta(endpoint).Some?
    ensures Consulta(endpoint + "&" + param) == Some(Consulta(endpoint).value + "&" + param)
  {
    var url := endpoint + "&" + param;
    var i := Primero(endpoint, '?').value;
    assert url[..i] == endpoint[..i] && url[i] == '?';
    PrimeroEn(url, '?', i);
    var cola := endpoint[i + 1..];
    SinEnCola(endpoint, '#', i + 1);
    assert url[i + 1..] == cola + "&" + param;
    assert '#' !in cola + "&" + param;
  }

  /** What `axios.get` produced: a response with its status and `data.challenge`, or none (a network error). */
  datatype Http = Respuesta(estado: int, reto: Option<Reto>) | SinRespuesta

  /** `axios` resolves on a 2xx status and rejects otherwise. */
  predicate Exitoso(estado: int) {
    200 <= estado < 300
  }

  /**
   * `resolverDesafioApi`: the code assembled from a 2xx answer, the previous code on a 400,
   * and `undefined` (`None`) whenever anything throws, since the outer `catch` swallows it.
   */
  function ResolucionDesafio(hayBotonCopiar: bool, portapapeles: string, titulo: string, codigoPrevio: string,
                             codificar: string -> string, pedir: string -> Http): (r: Option<string>)
    ensures !hayBotonCopiar || portapapeles == [] ==> r.None?
    ensures hayBotonCopiar && portapapeles != [] ==>
      var respuesta := pedir(ConstruirUrl(portapapeles, codificar(titulo), codificar(codigoPrevio)));
      && (respuesta.Respuesta? && respuesta.estado == 400 ==> r == Some(codigoPrevio))
      && (respuesta.Respuesta? && Exitoso(respuesta.estado) ==> r == CodigoDe(respuesta.reto))
      && (r.Some? ==> respuesta.Respuesta? && (respuesta.estado == 400 || Exitoso(respuesta.estado)))
  {
    if !hayBotonCopiar || portapapeles == [] then None
    else
      match pedir(ConstruirUrl(portapapeles, codificar(titulo), codificar(codigoPrevio)))
      case Respuesta(estado, reto) =>
        if Exitoso(estado) then CodigoDe(reto)
        else if estado == 400 then Some(codigoPrevio)
        else None
      case SinRespuesta => None
  }

  /**
   * The procedure itself: each `throw` sets `lanza`, and the two `catch` blocks are the
   * tests of it that follow.
   */
  method ResolverDesafioApi(hayBotonCopiar: bool, portapapeles: string, titulo: string, codigoPrevio: string,
                            codificar: string -> string, pedir: string -> Http) returns (r: Option<string>)
    ensures r == ResolucionDesafio(hayBotonCopiar, portapapeles, titulo, codigoPrevio, codificar, pedir)
  {
    var lanza := false;
    r := None;
    if !hayBotonCopiar {
      lanza := true;
    } else if portapapeles == [] {
      lanza := true;
    } else {
      var url := portapapeles + Separador(portapapeles) + Parametros(codificar(titulo), codificar(codigoPrevio));
      var codigo: Option<string> := None;
      var respuesta := pedir(url);
      var error: Option<Http> := None;
      if respuesta.Respuesta? && Exitoso(respuesta.estado) {
        codigo := CodigoDe(respuesta.reto);
        if codigo.None? {
          error := Some(SinRespuesta);
        }
      } else {
        error := Some(respuesta);
      }
      if error.Some? {
        if error.value.Respuesta? && error.value.estado == 400 {
          codigo := Some(codigoPrevio);
        } else {
          lanza := true;
        }
      }
      if !lanza {
        r := codigo;
      }
    }
  }
}
