/**
 * src/utils/helpers.ts: the century ranking, the stable sort by century and the
 * file name derived from a title. src/scripts/manuscritos.ts carries an identical
 * private copy of the first two; both copies are modelled by this module.
 */
module Helpers {
  import opened JsStrings
  import opened Records

  /** The lookup table of `sigloARoman`; a key outside it yields 0. */
  function Romano(clave: string): (r: nat)
    ensures r == 0 || 14 <= r <= 18
  {
    if clave == "XIV" then 14
    else if clave == "XV" then 15
    else if clave == "XVI" then 16
    else if clave == "XVII" then 17
    else if clave == "XVIII" then 18
    else 0
  }

  /** The table key `sigloARoman` derives from a label: the first "Siglo " removed, then trimmed. */
  function Clave(siglo: string): (r: string)
    ensures r == [] || (!IsSpace(r[0]) && !IsSpace(r[|r| - 1]))
  {
    Trim(RemoveFirst(siglo, "Siglo "))
  }

  /**
   * `romanos[siglo.replace("Siglo ", "").trim()] || 0`: no table value is 0, so `|| 0`
   * only replaces a missing key.
   */
  function SigloARoman(siglo: string): (r: nat)
    ensures r == 0 || 14 <= r <= 18
  {
    Romano(Clave(siglo))
  }

  predicate SinS(s: string) {
    forall i :: 0 <= i < |s| ==> s[i] != 'S'
  }

  lemma NumeralSinS(numeral: string)
    requires Romano(numeral) != 0
    ensures SinS(numeral) && numeral != []
    ensures !IsSpace(numeral[0]) && !IsSpace(numeral[|numeral| - 1])
  {
  }

  /** A string without the letter 'S' holds no "Siglo ", so `replace` leaves it alone. */
  lemma RemoveFirstSinS(s: string)
    requires SinS(s)
    ensures RemoveFirst(s, "Siglo ") == s
  {
    forall i: nat ensures !OccursAt(s, "Siglo ", i) {
      if i + 6 <= |s| {
        assert s[i..i + 6][0] == s[i];
      }
    }
  }

  lemma ClavePrefijada(numeral: string, a: string, b: string)
    requires Romano(numeral) != 0
    requires AllSpace(a) && AllSpace(b)
    ensures Clave("Siglo " + a + numeral + b) == numeral
  {
    NumeralSinS(numeral);
    var resto := a + numeral + b;
    assert "Siglo " + a + numeral + b == "Siglo " + resto;
    RemoveFirstPrefix("Siglo ", resto);
    TrimPadded(a, numeral, b);
  }

  lemma ClaveSinPrefijo(numeral: string, a: string, b: string)
    requires Romano(numeral) != 0
    requires AllSpace(a) && AllSpace(b)
    ensures Clave(a + numeral + b) == numeral
  {
    NumeralSinS(numeral);
    var resto := a + numeral + b;
    assert SinS(resto) by {
      forall i | 0 <= i < |resto| ensures resto[i] != 'S' {
        if i < |a| {
          assert IsSpace(resto[i]);
        } else if i < |a| + |numeral| {
          assert resto[i] == numeral[i - |a|];
        } else {
          assert IsSpace(resto[i]);
        }
      }
    }
    RemoveFirstSinS(resto);
    TrimPadded(a, numeral, b);
  }

  /** The five known labels, with or without the "Siglo " prefix and surrounding whitespace, rank 14 to 18. */
  lemma SigloConocido(numeral: string, a: string, b: string)
    requires Romano(numeral) != 0
    requires AllSpace(a) && AllSpace(b)
    ensures SigloARoman("Siglo " + a + numeral + b) == Romano(numeral)
    ensures SigloARoman(a + numeral + b) == Romano(numeral)
  {
    ClavePrefijada(numeral, a, b);
    ClaveSinPrefijo(numeral, a, b);
  }

  /** Whitespace before the "Siglo " prefix is trimmed away as well. */
  lemma SigloConocidoTrasEspacios(numeral: string, c: string, a: string, b: string)
    requires Romano(numeral) != 0
    requires AllSpace(c) && AllSpace(a) && AllSpace(b)
    ensures SigloARoman(c + "Siglo " + a + numeral + b) == Romano(numeral)
  {
    ClaveTrasEspacios(numeral, c, "Siglo ", a, b);
  }

  lemma ClaveTrasEspacios(numeral: string, c: string, p: string, a: string, b: string)
    requires Romano(numeral) != 0 && p == "Siglo "
    requires AllSpace(c) && AllSpace(a) && AllSpace(b)
    ensures Clave(c + p + a + numeral + b) == numeral
  {
    NumeralSinS(numeral);
    var x := a + numeral + b;
    Asociativa(c + p, a, numeral);
    Asociativa(c + p, a + numeral, b);
    RemoveFirstAfterSpace(c, p, x);
    Asociativa(c, a, numeral);
    Asociativa(c, a + numeral, b);
    EspaciosConcatenados(c, a);
    TrimPadded(c + a, numeral, b);
  }

  lemma EspaciosConcatenados(c: string, a: string)
    requires AllSpace(c) && AllSpace(a)
    ensures AllSpace(c + a)
  {
    forall i | 0 <= i < |c + a| ensures IsSpace((c + a)[i]) {
      if i < |c| { assert (c + a)[i] == c[i]; } else { assert (c + a)[i] == a[i - |c|]; }
    }
  }

  /** XIV < XV < XVI < XVII < XVIII, whatever whitespace surrounds the numeral. */
  lemma RangoCreciente(a: string, b: string)
    requires AllSpace(a) && AllSpace(b)
    ensures SigloARoman("Siglo " + a + "XIV" + b) < SigloARoman("Siglo " + a + "XV" + b)
    ensures SigloARoman("Siglo " + a + "XV" + b) < SigloARoman("Siglo " + a + "XVI" + b)
    ensures SigloARoman("Siglo " + a + "XVI" + b) < SigloARoman("Siglo " + a + "XVII" + b)
    ensures SigloARoman("Siglo " + a + "XVII" + b) < SigloARoman("Siglo " + a + "XVIII" + b)
  {
    SigloConocido("XIV", a, b);
    SigloConocido("XV", a, b);
    SigloConocido("XVI", a, b);
    SigloConocido("XVII", a, b);
    SigloConocido("XVIII", a, b);
  }

  /** A label whose key is not in the table ranks 0, below every known label. */
  lemma SigloDesconocido(otro: string, conocido: string)
    requires Clave(otro) != "XIV" && Clave(otro) != "XV" && Clave(otro) != "XVI"
    requires Clave(otro) != "XVII" && Clave(otro) != "XVIII"
    requires Clave(conocido) in ["XIV", "XV", "XVI", "XVII", "XVIII"]
    ensures SigloARoman(otro) == 0 < SigloARoman(conocido)
  {
  }

  /** The comparator key: the rank of a record's century label. */
  function Rango(m: Manuscrito): (r: nat)
    ensures r == 0 || 14 <= r <= 18
  {
    SigloARoman(m.siglo)
  }

  predicate OrdenadoPor(s: seq<Manuscrito>, clave: Manuscrito -> nat) {
    forall i, j :: 0 <= i < j < |s| ==> clave(s[i]) <= clave(s[j])
  }

  /** The records of `s` whose key is `k`, in their order in `s`. */
  function DeClave(s: seq<Manuscrito>, clave: Manuscrito -> nat, k: nat): (r: seq<Manuscrito>)
    ensures forall x :: x in r ==> x in s && clave(x) == k
  {
    if s == [] then []
    else (if clave(s[0]) == k then [s[0]] else []) + DeClave(s[1..], clave, k)
  }

  lemma CotaInferior(s: seq<Manuscrito>, u: seq<Manuscrito>, m: Manuscrito, clave: Manuscrito -> nat, b: nat)
    requires multiset(s) == multiset(u) + multiset{m}
    requires b <= clave(m) && forall i :: 0 <= i < |u| ==> b <= clave(u[i])
    ensures forall i :: 0 <= i < |s| ==> b <= clave(s[i])
  {
    forall i | 0 <= i < |s| ensures b <= clave(s[i]) {
      assert s[i] in multiset(s);
      if s[i] != m {
        assert s[i] in multiset(u);
        var j :| 0 <= j < |u| && u[j] == s[i];
      }
    }
  }

  /** Places `m` in a sorted sequence before the first record of equal or higher key. */
  function Insertar(m: Manuscrito, t: seq<Manuscrito>, clave: Manuscrito -> nat): (r: seq<Manuscrito>)
    requires OrdenadoPor(t, clave)
    ensures multiset(r) == multiset(t) + multiset{m}
    ensures OrdenadoPor(r, clave)
  {
    if t == [] || clave(m) <= clave(t[0]) then
      OrdenadoDelante(m, t, clave);
      [m] + t
    else
      OrdenadoCola(t, clave);
      var resto := Insertar(m, t[1..], clave);
      CotaInferior(resto, t[1..], m, clave, clave(t[0]));
      OrdenadoCons(t[0], resto, clave);
      MultisetCons(t, resto, m);
      [t[0]] + resto
  }

  lemma OrdenadoCola(t: seq<Manuscrito>, clave: Manuscrito -> nat)
    requires OrdenadoPor(t, clave) && t != []
    ensures OrdenadoPor(t[1..], clave)
    ensures forall i :: 0 <= i < |t[1..]| ==> clave(t[0]) <= clave(t[1..][i])
  {
    assert forall i :: 0 <= i < |t[1..]| ==> t[1..][i] == t[i + 1];
  }

  lemma OrdenadoCons(x: Manuscrito, r: seq<Manuscrito>, clave: Manuscrito -> nat)
    requires OrdenadoPor(r, clave) && forall i :: 0 <= i < |r| ==> clave(x) <= clave(r[i])
    ensures OrdenadoPor([x] + r, clave)
  {
    assert forall i :: 0 < i < |[x] + r| ==> ([x] + r)[i] == r[i - 1];
  }

  lemma OrdenadoDelante(m: Manuscrito, t: seq<Manuscrito>, clave: Manuscrito -> nat)
    requires OrdenadoPor(t, clave) && (t == [] || clave(m) <= clave(t[0]))
    ensures OrdenadoPor([m] + t, clave)
  {
    OrdenadoCons(m, t, clave);
  }

  lemma MultisetCons(t: seq<Manuscrito>, resto: seq<Manuscrito>, m: Manuscrito)
    requires t != [] && multiset(resto) == multiset(t[1..]) + multiset{m}
    ensures multiset([t[0]] + resto) == multiset(t) + multiset{m}
  {
    assert t == [t[0]] + t[1..];
  }

  /** Inserting `m` adds it in front of the records that share its key and leaves the other keys alone. */
  lemma {:induction false} InsertarDeClave(m: Manuscrito, t: seq<Manuscrito>, clave: Manuscrito -> nat, k: nat)
    requires OrdenadoPor(t, clave)
    ensures DeClave(Insertar(m, t, clave), clave, k) == (if clave(m) == k then [m] else []) + DeClave(t, clave, k)
  {
    var r := Insertar(m, t, clave);
    if t == [] || clave(m) <= clave(t[0]) {
      assert r == [m] + t && r[1..] == t;
    } else {
      var resto := Insertar(m, t[1..], clave);
      assert r == [t[0]] + resto && r[1..] == resto;
      InsertarDeClave(m, t[1..], clave, k);
      assert DeClave(t, clave, k) == (if clave(t[0]) == k then [t[0]] else []) + DeClave(t[1..], clave, k);
      assert DeClave(r, clave, k) == (if clave(t[0]) == k then [t[0]] else []) + DeClave(resto, clave, k);
    }
  }

  /** Insertion sort by `clave`. */
  function OrdenarPor(s: seq<Manuscrito>, clave: Manuscrito -> nat): (r: seq<Manuscrito>)
    ensures |r| == |s| && multiset(r) == multiset(s)
    ensures OrdenadoPor(r, clave)
  {
    if s == [] then []
    else
      var t := OrdenarPor(s[1..], clave);
      assert multiset(s) == multiset{s[0]} + multiset(s[1..]) by {
        assert s == [s[0]] + s[1..];
      }
      var r := Insertar(s[0], t, clave);
      assert |r| == |multiset(r)| == |multiset(s)| == |s|;
      r
  }

  /** The sort is stable: the records of each key come out in their input order. */
  lemma {:induction false} OrdenarPorEstable(s: seq<Manuscrito>, clave: Manuscrito -> nat, k: nat)
    ensures DeClave(OrdenarPor(s, clave), clave, k) == DeClave(s, clave, k)
  {
    if s != [] {
      OrdenarPorEstable(s[1..], clave, k);
      InsertarDeClave(s[0], OrdenarPor(s[1..], clave), clave, k);
    }
  }

  /**
   * `[...manuscritos].sort((a, b) => sigloARoman(a.siglo) - sigloARoman(b.siglo))`: a new
   * sequence, a permutation of the input, ordered by rank; `Array.prototype.sort` is stable,
   * so the records of each rank keep their relative order.
   */
  function OrdenarManuscritosPorSiglo(s: seq<Manuscrito>): (r: seq<Manuscrito>)
    ensures |r| == |s| && multiset(r) == multiset(s)
    ensures OrdenadoPor(r, Rango)
  {
    OrdenarPor(s, Rango)
  }

  /** Records of equal century rank keep their relative order. */
  lemma OrdenarEstable(s: seq<Manuscrito>, k: nat)
    ensures DeClave(OrdenarManuscritosPorSiglo(s), Rango, k) == DeClave(s, Rango, k)
  {
    OrdenarPorEstable(s, Rango, k);
  }

  lemma DeClaveCabeza(s: seq<Manuscrito>, clave: Manuscrito -> nat)
    requires s != []
    ensures DeClave(s, clave, clave(s[0])) == [s[0]] + DeClave(s[1..], clave, clave(s[0]))
  {
  }

  lemma ColasDeClave(a: seq<Manuscrito>, b: seq<Manuscrito>, clave: Manuscrito -> nat, k: nat)
    requires a != [] && b != [] && a[0] == b[0]
    requires DeClave(a, clave, k) == DeClave(b, clave, k)
    ensures DeClave(a[1..], clave, k) == DeClave(b[1..], clave, k)
  {
    var pre := if clave(a[0]) == k then [a[0]] else [];
    assert DeClave(a, clave, k) == pre + DeClave(a[1..], clave, k);
    assert DeClave(b, clave, k) == pre + DeClave(b[1..], clave, k);
    assert DeClave(a[1..], clave, k) == DeClave(a, clave, k)[|pre|..];
    assert DeClave(b[1..], clave, k) == DeClave(b, clave, k)[|pre|..];
  }

  /** The first record of a sorted sequence has the least key. */
  lemma MinimoAlFrente(a: seq<Manuscrito>, clave: Manuscrito -> nat, x: Manuscrito)
    requires OrdenadoPor(a, clave) && x in a
    ensures clave(a[0]) <= clave(x)
  {
    var i :| 0 <= i < |a| && a[i] == x;
    if i > 0 {
      assert clave(a[0]) <= clave(a[i]);
    }
  }

  lemma CabezasIguales(a: seq<Manuscrito>, b: seq<Manuscrito>, clave: Manuscrito -> nat)
    requires a != [] && b != []
    requires OrdenadoPor(a, clave) && OrdenadoPor(b, clave)
    requires DeClave(a, clave, clave(a[0])) == DeClave(b, clave, clave(a[0]))
    requires DeClave(a, clave, clave(b[0])) == DeClave(b, clave, clave(b[0]))
    ensures a[0] == b[0]
  {
    var ra, rb := clave(a[0]), clave(b[0]);
    DeClaveCabeza(a, clave);
    DeClaveCabeza(b, clave);
    MinimoAlFrente(a, clave, DeClave(a, clave, rb)[0]);
    MinimoAlFrente(b, clave, DeClave(b, clave, ra)[0]);
  }

  /**
   * A sorted sequence is determined by its per-key subsequences: a stable sort has
   * exactly one possible result.
   */
  lemma {:induction false} OrdenEstableUnico(a: seq<Manuscrito>, b: seq<Manuscrito>, clave: Manuscrito -> nat)
    requires OrdenadoPor(a, clave) && OrdenadoPor(b, clave)
    requires forall k :: DeClave(a, clave, k) == DeClave(b, clave, k)
    ensures a == b
    decreases |a|
  {
    if a == [] || b == [] {
      if a != [] {
        DeClaveCabeza(a, clave);
      } else if b != [] {
        DeClaveCabeza(b, clave);
      }
    } else {
      CabezasIguales(a, b, clave);
      forall k ensures DeClave(a[1..], clave, k) == DeClave(b[1..], clave, k) {
        ColasDeClave(a, b, clave, k);
      }
      OrdenEstableUnico(a[1..], b[1..], clave);
      assert a == [a[0]] + a[1..] && b == [b[0]] + b[1..];
    }
  }

  /** Sorting an already sorted sequence changes nothing. */
  lemma OrdenarOrdenado(s: seq<Manuscrito>)
    requires OrdenadoPor(s, Rango)
    ensures OrdenarManuscritosPorSiglo(s) == s
  {
    forall k ensures DeClave(OrdenarManuscritosPorSiglo(s), Rango, k) == DeClave(s, Rango, k) {
      OrdenarEstable(s, k);
    }
    OrdenEstableUnico(OrdenarManuscritosPorSiglo(s), s, Rango);
  }

  /**
   * `title.replace(/\s+/g, "_")`: each maximal run of whitespace becomes one underscore.
   */
  function Sanear(s: string): (r: string)
    ensures NoSpace(r)
    ensures |r| <= |s|
    decreases |s|
  {
    if s == [] then []
    else if IsSpace(s[0]) then
      var resto := TrimStart(s);
      assert resto != s;
      "_" + Sanear(resto)
    else [s[0]] + Sanear(s[1..])
  }

  /** A title without whitespace is kept as it is. */
  lemma {:induction false} SanearSinEspacios(s: string)
    requires NoSpace(s)
    ensures Sanear(s) == s
  {
    if s != [] {
      SanearSinEspacios(s[1..]);
      assert s == [s[0]] + s[1..];
    }
  }

  /** Sanitising twice is sanitising once. */
  lemma SanearIdempotente(s: string)
    ensures Sanear(Sanear(s)) == Sanear(s)
  {
    SanearSinEspacios(Sanear(s));
  }

  /** A non-empty run of whitespace alone becomes a single underscore. */
  lemma SanearRacha(w: string)
    requires w != [] && AllSpace(w)
    ensures Sanear(w) == "_"
  {
    assert w == w + [];
    TrimStartPadded(w, []);
  }

  lemma {:induction false} TrimStartAppend(a: string, b: string)
    requires TrimStart(a) != []
    ensures TrimStart(a + b) == TrimStart(a) + b
  {
    var ab := a + b;
    assert ab[0] == a[0];
    if IsSpace(a[0]) {
      assert ab[1..] == a[1..] + b;
      TrimStartAppend(a[1..], b);
    }
  }

  /** The split condition of `SanearConcatena`: it does not fall inside a whitespace run. */
  predicate CorteLimpio(a: string, b: string) {
    a == [] || b == [] || !IsSpace(a[|a| - 1]) || !IsSpace(b[0])
  }

  /**
   * Sanitising distributes over a split that does not fall inside a whitespace run:
   * together with `SanearRacha` and `SanearSinEspacios` this says that each maximal
   * whitespace run, and nothing else, is replaced by one underscore.
   */
  lemma {:induction false} SanearConcatena(a: string, b: string)
    requires CorteLimpio(a, b)
    ensures Sanear(a + b) == Sanear(a) + Sanear(b)
    decreases |a|, 1
  {
    if a == [] {
      assert a + b == b;
    } else if !IsSpace(a[0]) {
      SanearConcatenaLetra(a, b);
    } else if TrimStart(a) == [] {
      SanearConcatenaRacha(a, b);
    } else {
      SanearConcatenaEspacio(a, b);
    }
  }

  lemma {:induction false} SanearConcatenaLetra(a: string, b: string)
    requires CorteLimpio(a, b) && a != [] && !IsSpace(a[0])
    ensures Sanear(a + b) == Sanear(a) + Sanear(b)
    decreases |a|, 0
  {
    ColaConcatenada(a, b);
    SanearLetra(a + b);
    SanearLetra(a);
    CorteLimpioCola(a, b);
    SanearConcatena(a[1..], b);
    Asociativa([a[0]], Sanear(a[1..]), Sanear(b));
  }

  lemma ColaConcatenada(a: string, b: string)
    requires a != []
    ensures (a + b)[0] == a[0] && (a + b)[1..] == a[1..] + b
  {
  }

  lemma CorteLimpioCola(a: string, b: string)
    requires CorteLimpio(a, b) && a != []
    ensures CorteLimpio(a[1..], b)
  {
    if a[1..] != [] {
      assert a[1..][|a[1..]| - 1] == a[|a| - 1];
    }
  }

  lemma SanearLetra(s: string)
    requires s != [] && !IsSpace(s[0])
    ensures Sanear(s) == [s[0]] + Sanear(s[1..])
  {
  }

  lemma SanearConcatenaRacha(a: string, b: string)
    requires CorteLimpio(a, b) && a != [] && TrimStart(a) == []
    ensures Sanear(a + b) == Sanear(a) + Sanear(b)
  {
    assert a[..|a|] == a;
    assert IsSpace(a[|a| - 1]);
    TrimStartPadded(a, b);
    SanearRacha(a);
    var ab := a + b;
    assert ab[0] == a[0];
    assert Sanear(ab) == "_" + Sanear(TrimStart(ab));
  }

  lemma {:induction false} SanearConcatenaEspacio(a: string, b: string)
    requires CorteLimpio(a, b) && a != [] && IsSpace(a[0]) && TrimStart(a) != []
    ensures Sanear(a + b) == Sanear(a) + Sanear(b)
    decreases |a|, 0
  {
    TrimStartAppend(a, b);
    var resto := TrimStart(a);
    var ab := a + b;
    assert ab[0] == a[0];
    assert Sanear(ab) == "_" + Sanear(resto + b);
    assert Sanear(a) == "_" + Sanear(resto);
    assert resto[|resto| - 1] == a[|a| - 1];
    assert |resto| < |a|;
    SanearConcatena(resto, b);
    Asociativa("_", Sanear(resto), Sanear(b));
  }

  /** A whitespace run between two non-space boundaries becomes exactly one underscore. */
  lemma SanearConRacha(a: string, w: string, b: string)
    requires a == [] || !IsSpace(a[|a| - 1])
    requires b == [] || !IsSpace(b[0])
    requires w != [] && AllSpace(w)
    ensures Sanear(a + (w + b)) == Sanear(a) + ("_" + Sanear(b))
  {
    SanearRachaDelante(w, b);
    CorteAntesDeRacha(a, w + b);
    SanearConcatena(a, w + b);
  }

  lemma CorteAntesDeRacha(a: string, wb: string)
    requires a == [] || !IsSpace(a[|a| - 1])
    ensures CorteLimpio(a, wb)
  {
  }

  lemma SanearRachaDelante(w: string, b: string)
    requires b == [] || !IsSpace(b[0])
    requires w != [] && AllSpace(w)
    ensures Sanear(w + b) == "_" + Sanear(b)
  {
    assert CorteLimpio(w, b);
    SanearConcatena(w, b);
    SanearRacha(w);
  }

  /** Two titles that differ only in the length of one whitespace run get the same file name. */
  lemma MismaRachaMismoNombre(a: string, w1: string, w2: string, b: string)
    requires a == [] || !IsSpace(a[|a| - 1])
    requires b == [] || !IsSpace(b[0])
    requires w1 != [] && AllSpace(w1) && w2 != [] && AllSpace(w2)
    ensures NombrePdf(a + w1 + b) == NombrePdf(a + w2 + b)
  {
    SanearConRacha(a, w1, b);
    SanearConRacha(a, w2, b);
    Asociativa(a, w1, b);
    Asociativa(a, w2, b);
  }

  /** The file name `obtenerPdfPath` joins to the downloads directory. */
  function NombrePdf(titulo: string): (r: string)
    ensures NoSpace(r)
    ensures |r| >= 4 && r[|r| - 4..] == ".pdf"
    ensures r[..|r| - 4] == Sanear(titulo)
  {
    Sanear(titulo) + ".pdf"
  }
}
