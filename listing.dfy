/**
 * What src/scripts/manuscritos.ts reads off the listing page: the deduplication at the
 * end of `obtenerManuscritos` (a `Map` keyed by title) and the page numbers of
 * `obtenerPaginas`. The DOM queries themselves are outside the model: both take the
 * texts the page yields as their input.
 */
module Listing {
  import opened JsStrings
  import opened Records

  /** The position of the first record titled `t`. */
  function PrimeraPos(s: seq<Manuscrito>, t: string): (r: nat)
    requires t in Titulos(s)
    ensures r < |s| && s[r].titulo == t
    ensures forall i :: 0 <= i < r ==> s[i].titulo != t
  {
    if s[0].titulo == t then 0
    else
      assert t in Titulos(s[1..]) by {
        var i :| 0 <= i < |s| && s[i].titulo == t;
        assert s[1..][i - 1] == s[i];
      }
      1 + PrimeraPos(s[1..], t)
  }

  /** The position of the last record titled `t`. */
  function UltimaPos(s: seq<Manuscrito>, t: string): (r: nat)
    requires t in Titulos(s)
    ensures r < |s| && s[r].titulo == t
    ensures forall i :: r < i < |s| ==> s[i].titulo != t
  {
    var n := |s| - 1;
    if s[n].titulo == t then n
    else
      assert t in Titulos(s[..n]) by {
        var i :| 0 <= i < |s| && s[i].titulo == t;
        assert s[..n][i] == s[i];
      }
      UltimaPos(s[..n], t)
  }

  /** The non-empty titles of `s`, each once, in the order of their first occurrence. */
  function TitulosEnOrden(s: seq<Manuscrito>): (r: seq<string>)
    ensures forall j :: 0 <= j < |r| ==> r[j] != ""
    ensures forall j, k :: 0 <= j < k < |r| ==> r[j] != r[k]
    ensures forall t :: t in r <==> t != "" && t in Titulos(s)
  {
    if s == [] then []
    else
      var n := |s| - 1;
      var previo := TitulosEnOrden(s[..n]);
      var t := s[n].titulo;
      assert Titulos(s) == Titulos(s[..n]) + {t} by {
        forall u | u in Titulos(s) ensures u in Titulos(s[..n]) + {t} {
          var i :| 0 <= i < |s| && s[i].titulo == u;
          if i < n { assert s[..n][i] == s[i]; }
        }
        forall u | u in Titulos(s[..n]) ensures u in Titulos(s) {
          var i :| 0 <= i < n && s[..n][i].titulo == u;
        }
      }
      if t == "" || t in previo then previo else previo + [t]
  }

  /** Titles listed earlier first occur earlier: `Map` keeps keys in insertion order. */
  lemma {:induction false} TitulosEnOrdenDePrimeraAparicion(s: seq<Manuscrito>, j: nat, k: nat)
    requires j < k < |TitulosEnOrden(s)|
    ensures TitulosEnOrden(s)[j] in Titulos(s) && TitulosEnOrden(s)[k] in Titulos(s)
    ensures PrimeraPos(s, TitulosEnOrden(s)[j]) < PrimeraPos(s, TitulosEnOrden(s)[k])
  {
    var r := TitulosEnOrden(s);
    assert r[j] in r && r[k] in r;
    var n := |s| - 1;
    var previo := TitulosEnOrden(s[..n]);
    PrimeraPosPrefijo(s, n, r[j]);
    if k < |previo| {
      TitulosEnOrdenDePrimeraAparicion(s[..n], j, k);
      PrimeraPosPrefijo(s, n, r[k]);
    } else {
      PrimeraPosNuevo(s);
    }
  }

  /** A title that the prefix does not have first occurs at the last position. */
  lemma PrimeraPosNuevo(s: seq<Manuscrito>)
    requires s != [] && s[|s| - 1].titulo !in Titulos(s[..|s| - 1])
    ensures s[|s| - 1].titulo in Titulos(s) && PrimeraPos(s, s[|s| - 1].titulo) == |s| - 1
  {
    var n := |s| - 1;
    forall i | 0 <= i < n ensures s[i].titulo != s[n].titulo {
      assert s[..n][i] == s[i];
    }
  }

  /** The first occurrence of a title found in a prefix is the same in the whole sequence. */
  lemma PrimeraPosPrefijo(s: seq<Manuscrito>, n: nat, t: string)
    requires n <= |s| && t in Titulos(s[..n])
    ensures t in Titulos(s) && PrimeraPos(s, t) == PrimeraPos(s[..n], t)
  {
    var p := PrimeraPos(s[..n], t);
    assert s[p] == s[..n][p];
    var q := PrimeraPos(s, t);
  }

  /**
   * The deduplicated listing, specified without reference to a `Map`: one record per
   * non-empty title, in first-occurrence order, each being that title's last record.
   */
  function Unicos(lista: seq<Manuscrito>): (r: seq<Manuscrito>)
    ensures |r| == |TitulosEnOrden(lista)|
  {
    var orden := TitulosEnOrden(lista);
    seq(|orden|, j requires 0 <= j < |orden| => lista[UltimaPos(lista, orden[j])])
  }

  /** Empty titles are dropped and every other title appears exactly once. */
  lemma UnicosTitulos(lista: seq<Manuscrito>)
    ensures forall j :: 0 <= j < |Unicos(lista)| ==> Unicos(lista)[j].titulo != ""
    ensures forall j, k :: 0 <= j < k < |Unicos(lista)| ==> Unicos(lista)[j].titulo != Unicos(lista)[k].titulo
    ensures Titulos(Unicos(lista)) == Titulos(lista) - {""}
  {
    var r, orden := Unicos(lista), TitulosEnOrden(lista);
    assert forall j :: 0 <= j < |r| ==> r[j].titulo == orden[j];
    forall t | t in Titulos(lista) - {""} ensures t in Titulos(r) {
      assert t in orden;
      var j :| 0 <= j < |orden| && orden[j] == t;
      assert r[j].titulo == t;
    }
  }

  /** Each kept record is the last record with its title; it sits where the title first appeared. */
  lemma UnicosUltimoYPrimero(lista: seq<Manuscrito>, j: nat)
    requires j < |Unicos(lista)|
    ensures var t := Unicos(lista)[j].titulo;
      t in Titulos(lista) &&
      Unicos(lista)[j] == lista[UltimaPos(lista, t)] &&
      forall k :: j < k < |Unicos(lista)| ==> PrimeraPos(lista, t) < PrimeraPos(lista, Unicos(lista)[k].titulo)
  {
    var r, orden := Unicos(lista), TitulosEnOrden(lista);
    assert orden[j] in orden;
    forall k | j < k < |r|
      ensures PrimeraPos(lista, orden[j]) < PrimeraPos(lista, r[k].titulo)
    {
      TitulosEnOrdenDePrimeraAparicion(lista, j, k);
    }
  }

  /**
   * The `forEach` over the cards with `unicos.set(obj.titulo, obj)` for every non-empty
   * title, followed by `Array.from(unicos.values())`. `claves` holds the `Map`'s keys in
   * insertion order; re-setting a key replaces its value and keeps its place.
   */
  method Deduplicar(lista: seq<Manuscrito>) returns (unicos: seq<Manuscrito>)
    ensures unicos == Unicos(lista)
  {
    var claves: seq<string> := [];
    var valores: map<string, Manuscrito> := map[];
    for i := 0 to |lista|
      invariant claves == TitulosEnOrden(lista[..i])
      invariant forall t :: t in valores <==> t in claves
      invariant forall t :: t in valores ==> t in Titulos(lista[..i]) && valores[t] == lista[UltimaPos(lista[..i], t)]
    {
      var obj := lista[i];
      assert lista[..i + 1][..i] == lista[..i];
      assert lista[..i + 1][i] == obj;
      if obj.titulo != "" {
        if obj.titulo !in valores {
          claves := claves + [obj.titulo];
        }
        valores := valores[obj.titulo := obj];
      }
      forall t | t in valores
        ensures t in Titulos(lista[..i + 1]) && valores[t] == lista[UltimaPos(lista[..i + 1], t)]
      {
        if t != obj.titulo {
          UltimaPosPrefijo(lista[..i + 1], i, t);
        }
      }
    }
    assert lista[..|lista|] == lista;
    unicos := seq(|claves|, j requires 0 <= j < |claves| => valores[claves[j]]);
  }

  /** The last record titled `t` in `s[..n]` is still the last one in `s` when nothing after it has that title. */
  lemma UltimaPosPrefijo(s: seq<Manuscrito>, n: nat, t: string)
    requires n < |s| && s[n].titulo != t && n == |s| - 1
    requires t in Titulos(s[..n])
    ensures t in Titulos(s) && UltimaPos(s, t) == UltimaPos(s[..n], t)
  {
    var p := UltimaPos(s[..n], t);
    assert s[p] == s[..n][p];
  }

  predicate EsDigito(c: char) {
    '0' <= c <= '9'
  }

  /** `/^\d+$/.test(t)` */
  predicate TodoDigitos(t: string) {
    |t| > 0 && forall i :: 0 <= i < |t| ==> EsDigito(t[i])
  }

  /** `Number(t)` for a string of decimal digits. */
  function ValorDecimal(t: string): (r: nat)
    requires forall i :: 0 <= i < |t| ==> EsDigito(t[i])
    ensures t != [] && t[0] != '0' ==> r > 0
  {
    if t == [] then 0
    else
      assert EsDigito(t[|t| - 1]);
      ValorDecimal(t[..|t| - 1]) * 10 + (t[|t| - 1] as int - '0' as int)
  }

  /** The decimal numeral of `n`, as a pagination button shows it. */
  function Digitos(n: nat): (r: string)
    ensures TodoDigitos(r)
  {
    var ultimo := ('0' as int + n % 10) as char;
    if n < 10 then [ultimo] else Digitos(n / 10) + [ultimo]
  }

  /** Reading back a page number's numeral gives the number. */
  lemma {:induction false} ValorDeDigitos(n: nat)
    ensures ValorDecimal(Digitos(n)) == n
  {
    var d := Digitos(n);
    assert d[..|d| - 1] == if n < 10 then [] else Digitos(n / 10);
    if n >= 10 {
      ValorDeDigitos(n / 10);
    }
  }

  /**
   * `obtenerPaginas`: the texts of the candidate nodes, trimmed, kept when they are all
   * digits, converted with `Number`, in document order, duplicates kept.
   */
  function ObtenerPaginas(textos: seq<string>): (r: seq<nat>)
    ensures |r| <= |textos|
  {
    if textos == [] then [] else PaginaDe(textos[0]) + ObtenerPaginas(textos[1..])
  }

  /** The page one node's text stands for, if any. */
  function PaginaDe(texto: string): (r: seq<nat>)
    ensures |r| <= 1
  {
    var t := Trim(texto);
    if TodoDigitos(t) then [ValorDecimal(t)] else []
  }

  /** The page list of a document is the concatenation of the page lists of its parts. */
  lemma {:induction false} ObtenerPaginasConcatena(a: seq<string>, b: seq<string>)
    ensures ObtenerPaginas(a + b) == ObtenerPaginas(a) + ObtenerPaginas(b)
  {
    if a == [] {
      assert a + b == b;
    } else {
      var resto := a[1..];
      assert (a + b)[0] == a[0] && (a + b)[1..] == resto + b;
      var cabeza := PaginaDe(a[0]);
      calc {
        ObtenerPaginas(a + b);
        cabeza + ObtenerPaginas(resto + b);
        { ObtenerPaginasConcatena(resto, b); }
        cabeza + (ObtenerPaginas(resto) + ObtenerPaginas(b));
        { Asociativa(cabeza, ObtenerPaginas(resto), ObtenerPaginas(b)); }
        cabeza + ObtenerPaginas(resto) + ObtenerPaginas(b);
        ObtenerPaginas(a) + ObtenerPaginas(b);
      }
    }
  }

  /** A node whose text is the numeral of `n` padded with whitespace stands for page `n`. */
  lemma PaginaDeBoton(n: nat, a: string, b: string)
    requires AllSpace(a) && AllSpace(b)
    ensures PaginaDe(a + Digitos(n) + b) == [n]
  {
    var d := Digitos(n);
    TrimPadded(a, d, b);
    ValorDeDigitos(n);
  }

  /** A pagination button labelled with `n`, padded with whitespace, yields page `n`; any other text yields nothing. */
  lemma PaginaDeUnTexto(n: nat, a: string, b: string, otro: string)
    requires AllSpace(a) && AllSpace(b)
    requires !TodoDigitos(Trim(otro))
    ensures ObtenerPaginas([a + Digitos(n) + b]) == [n]
    ensures ObtenerPaginas([otro]) == []
  {
    PaginaDeBoton(n, a, b);
    UnTexto(a + Digitos(n) + b);
    UnTexto(otro);
  }

  lemma UnTexto(t: string)
    ensures ObtenerPaginas([t]) == PaginaDe(t)
  {
    assert [t][1..] == [];
  }
}
