/**
 * The two regular expressions of the unlock flow, both of the shape `kw:\s*([C]+)` with the
 * `i` flag: `/acceso:\s*([A-Z0-9\-]+)/i` in src/scripts/pdfUtils.ts and
 * `/contraseña:\s*([A-Z0-9]+)/i` in src/scripts/manuscritos.ts. `String.prototype.match`
 * without the `g` flag returns the capture of the leftmost match.
 *
 * Backtracking cannot change the outcome here: no whitespace character belongs to either
 * class, so `\s*` must consume the whole whitespace run and `[C]+`, which ends the
 * pattern, takes the longest run of class characters.
 */
module Patterns {
  import opened Wrappers
  import opened JsStrings

  /** The character classes of the two patterns. */
  datatype Clase = CodigoAcceso | Contrasena

  /**
   * Case folding of the `i` flag for the characters that matter: ASCII letters and ñ. Any
   * other character is left alone; none of them folds onto a character of the keywords
   * or classes (a non-ASCII character never folds onto an ASCII one).
   */
  function Mayuscula(c: char): char {
    if 'a' <= c <= 'z' then (c as int - 32) as char
    else if c == '\U{00F1}' then '\U{00D1}'
    else c
  }

  predicate EsAlfanumerico(c: char) {
    'A' <= c <= 'Z' || '0' <= c <= '9'
  }

  /** `[A-Z0-9\-]` or `[A-Z0-9]` under the `i` flag. */
  predicate EnClase(cls: Clase, c: char) {
    EsAlfanumerico(Mayuscula(c)) || (cls == CodigoAcceso && c == '-')
  }

  /** The keyword appears at `i`, letters compared without case. */
  predicate ClaveEn(texto: string, kw: string, i: nat) {
    i + |kw| <= |texto| && forall j :: 0 <= j < |kw| ==> Mayuscula(texto[i + j]) == Mayuscula(kw[j])
  }

  /** The end of the whitespace run starting at `k` (what `\s*` consumes). */
  function FinEspacios(texto: string, k: nat): (r: nat)
    requires k <= |texto|
    ensures k <= r <= |texto| && AllSpace(texto[k..r])
    ensures r == |texto| || !IsSpace(texto[r])
    decreases |texto| - k
  {
    if k == |texto| || !IsSpace(texto[k]) then k
    else
      var r := FinEspacios(texto, k + 1);
      assert forall j :: 0 <= j < r - k ==> texto[k..r][j] == texto[k + j];
      r
  }

  /** The end of the run of class characters starting at `k` (what a greedy `[C]+` consumes). */
  function FinClase(texto: string, cls: Clase, k: nat): (r: nat)
    requires k <= |texto|
    ensures k <= r <= |texto|
    ensures forall j :: k <= j < r ==> EnClase(cls, texto[j])
    ensures r == |texto| || !EnClase(cls, texto[r])
    decreases |texto| - k
  {
    if k == |texto| || !EnClase(cls, texto[k]) then k else FinClase(texto, cls, k + 1)
  }

  /** The pattern matches at `i`: keyword, optional whitespace, at least one class character. */
  predicate Coincide(texto: string, kw: string, cls: Clase, i: nat) {
    ClaveEn(texto, kw, i) &&
    var e := FinEspacios(texto, i + |kw|);
    e < |texto| && EnClase(cls, texto[e])
  }

  /** The group captured by a match at `i`. */
  function Captura(texto: string, kw: string, cls: Clase, i: nat): (r: string)
    requires Coincide(texto, kw, cls, i)
    ensures |r| > 0 && forall j :: 0 <= j < |r| ==> EnClase(cls, r[j])
  {
    var e := FinEspacios(texto, i + |kw|);
    var f := FinClase(texto, cls, e);
    assert forall j :: 0 <= j < f - e ==> texto[e..f][j] == texto[e + j];
    texto[e..f]
  }

  /** The leftmost match at or after `desde`. */
  function PrimeraCoincidencia(texto: string, kw: string, cls: Clase, desde: nat): (r: Option<nat>)
    ensures r.Some? ==> desde <= r.value && Coincide(texto, kw, cls, r.value)
    ensures forall j: nat :: desde <= j && (r.None? || j < r.value) ==> !Coincide(texto, kw, cls, j)
    decreases |texto| - desde
  {
    if desde + |kw| > |texto| then None
    else if Coincide(texto, kw, cls, desde) then Some(desde)
    else PrimeraCoincidencia(texto, kw, cls, desde + 1)
  }

  /** `texto.match(/kw\s*([C]+)/i)?.[1]`, with `None` for a failed match. */
  function Buscar(texto: string, kw: string, cls: Clase): (r: Option<string>)
    ensures r.None? <==> forall i: nat :: !Coincide(texto, kw, cls, i)
    ensures r.Some? ==> |r.value| > 0 && forall j :: 0 <= j < |r.value| ==> EnClase(cls, r.value[j])
  {
    match PrimeraCoincidencia(texto, kw, cls, 0)
    case None => None
    case Some(i) => Some(Captura(texto, kw, cls, i))
  }

  const ClaveAcceso: string := "acceso:"
  const ClaveContrasena: string := "contrase\U{00F1}a:"

  /** The match of `extraerCodigoPDF` on the text of a parsed PDF. */
  function CodigoDeAcceso(texto: string): (r: Option<string>)
    ensures r.Some? ==> |r.value| > 0
  {
    Buscar(texto, ClaveAcceso, CodigoAcceso)
  }

  /** The match in `procesarModalYDesbloquear` on the clipboard text after unlocking. */
  function ContrasenaEn(texto: string): (r: Option<string>)
    ensures r.Some? ==> |r.value| > 0
  {
    Buscar(texto, ClaveContrasena, Contrasena)
  }

  /** The returned group is the one of the leftmost match. */
  lemma BuscarEsLaPrimera(texto: string, kw: string, cls: Clase)
    requires Buscar(texto, kw, cls).Some?
    ensures exists i: nat ::
              && Coincide(texto, kw, cls, i)
              && Buscar(texto, kw, cls).value == Captura(texto, kw, cls, i)
              && forall j: nat :: j < i ==> !Coincide(texto, kw, cls, j)
  {
    var i := PrimeraCoincidencia(texto, kw, cls, 0).value;
    assert Coincide(texto, kw, cls, i) && Buscar(texto, kw, cls).value == Captura(texto, kw, cls, i);
  }

  /** The whitespace run of `w + x`, started at the front, ends where `x` starts when `x` does not start with whitespace. */
  lemma FinEspaciosSobre(texto: string, k: nat, n: nat)
    requires k + n <= |texto|
    requires forall j :: k <= j < k + n ==> IsSpace(texto[j])
    requires k + n == |texto| || !IsSpace(texto[k + n])
    ensures FinEspacios(texto, k) == k + n
    decreases n
  {
    if n > 0 {
      FinEspaciosSobre(texto, k + 1, n - 1);
    }
  }

  /** The run of class characters started at `k` is exactly `n` long. */
  lemma FinClaseSobre(texto: string, cls: Clase, k: nat, n: nat)
    requires k + n <= |texto|
    requires forall j :: k <= j < k + n ==> EnClase(cls, texto[j])
    requires k + n == |texto| || !EnClase(cls, texto[k + n])
    ensures FinClase(texto, cls, k) == k + n
    decreases n
  {
    if n > 0 {
      FinClaseSobre(texto, cls, k + 1, n - 1);
    }
  }

  /** Whitespace `w` after a prefix `p`, followed by a non-space, is one whole run. */
  lemma EspaciosTras(p: string, w: string, y: string)
    requires AllSpace(w)
    requires y == [] || !IsSpace(y[0])
    ensures FinEspacios(p + w + y, |p|) == |p| + |w|
  {
    var t := p + w + y;
    assert forall j :: |p| <= j < |p| + |w| ==> t[j] == w[j - |p|];
    assert |p| + |w| < |t| ==> t[|p| + |w|] == y[0];
    FinEspaciosSobre(t, |p|, |w|);
  }

  /** A run `c` of class characters after a prefix `p`, followed by a non-class character, is what `[C]+` takes. */
  lemma ClaseTras(p: string, c: string, y: string, cls: Clase)
    requires forall j :: 0 <= j < |c| ==> EnClase(cls, c[j])
    requires y == [] || !EnClase(cls, y[0])
    ensures FinClase(p + c + y, cls, |p|) == |p| + |c|
    ensures (p + c + y)[|p|..|p| + |c|] == c
  {
    var t := p + c + y;
    forall j | |p| <= j < |p| + |c| ensures EnClase(cls, t[j]) {
      assert t[j] == c[j - |p|];
    }
    if |p| + |c| < |t| {
      assert t[|p| + |c|] == y[0];
    }
    FinClaseSobre(t, cls, |p|, |c|);
    Rebanada(p, c, y);
  }

  lemma Rebanada(p: string, c: string, y: string)
    ensures (p + c + y)[|p|..|p| + |c|] == c
  {
    assert p + c + y == p + (c + y);
  }

  /** The keyword, in any letter case, at the front of a text. */
  lemma ClaveAlFrente(k: string, kw: string, x: string)
    requires |k| == |kw| && forall j :: 0 <= j < |kw| ==> Mayuscula(k[j]) == Mayuscula(kw[j])
    ensures ClaveEn(k + x, kw, 0)
  {
    assert forall j :: 0 <= j < |k| ==> (k + x)[j] == k[j];
  }

  /**
   * A text that starts with the keyword in any letter case, then whitespace, then a run of
   * class characters not followed by another one, yields that run.
   */
  lemma BuscarAlInicio(k: string, kw: string, cls: Clase, w: string, codigo: string, resto: string)
    requires |k| == |kw| && forall j :: 0 <= j < |kw| ==> Mayuscula(k[j]) == Mayuscula(kw[j])
    requires AllSpace(w)
    requires |codigo| > 0 && forall j :: 0 <= j < |codigo| ==> EnClase(cls, codigo[j])
    requires resto == [] || !EnClase(cls, resto[0])
    ensures Buscar(k + w + codigo + resto, kw, cls) == Some(codigo)
  {
    var texto := k + w + codigo + resto;
    var e := |k| + |w|;
    Asociativa(k + w, codigo, resto);
    assert (codigo + resto)[0] == codigo[0];
    assert EnClase(cls, codigo[0]);
    EspaciosTras(k, w, codigo + resto);
    ClaseTras(k + w, codigo, resto, cls);
    assert texto == k + (w + codigo + resto);
    ClaveAlFrente(k, kw, w + codigo + resto);
    assert texto[e] == codigo[0];
    assert Coincide(texto, kw, cls, 0);
  }

  /** Under the `i` flag the access keyword is found in upper case and lower-case letters stay in the code. */
  lemma AccesoSinDistinguirCaso(w: string, resto: string)
    requires AllSpace(w)
    requires resto == [] || !EnClase(CodigoAcceso, resto[0])
    ensures CodigoDeAcceso("ACCESO:" + w + "ab12-cd" + resto) == Some("ab12-cd")
  {
    BuscarAlInicio("ACCESO:", ClaveAcceso, CodigoAcceso, w, "ab12-cd", resto);
  }

  /** `-` is not a password character: it ends the captured password. */
  lemma ContrasenaHastaGuion(w: string, resto: string)
    requires AllSpace(w)
    ensures ContrasenaEn("CONTRASE\U{00D1}A:" + w + "ab12" + ("-cd" + resto)) == Some("ab12")
  {
    assert ("-cd" + resto)[0] == '-';
    BuscarAlInicio("CONTRASE\U{00D1}A:", ClaveContrasena, Contrasena, w, "ab12", "-cd" + resto);
  }
}
