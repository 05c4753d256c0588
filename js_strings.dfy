/**
 * The ECMAScript string built-ins the core relies on: the `\s` character class,
 * `String.prototype.trim`, and `String.prototype.replace` with a string pattern
 * (which replaces the first occurrence only).
 */
module JsStrings {
  import opened Wrappers

  /** WhiteSpace and LineTerminator of ECMAScript: what `\s` matches and what `trim` removes. */
  predicate IsSpace(c: char) {
    c == '\t' || c == '\n' || c == '\U{000B}' || c == '\U{000C}' || c == '\r' || c == ' '
    || c == '\U{00A0}' || c == '\U{1680}' || ('\U{2000}' <= c <= '\U{200A}')
    || c == '\U{2028}' || c == '\U{2029}' || c == '\U{202F}' || c == '\U{205F}'
    || c == '\U{3000}' || c == '\U{FEFF}'
  }

  predicate NoSpace(s: string) {
    forall i :: 0 <= i < |s| ==> !IsSpace(s[i])
  }

  predicate AllSpace(s: string) {
    forall i :: 0 <= i < |s| ==> IsSpace(s[i])
  }

  /** Drops the leading whitespace: what remains is a suffix that starts with a non-space. */
  function TrimStart(s: string): (r: string)
    ensures |r| <= |s| && r == s[|s| - |r|..]
    ensures AllSpace(s[..|s| - |r|])
    ensures r == [] || !IsSpace(r[0])
  {
    if s != [] && IsSpace(s[0]) then TrimStart(s[1..]) else s
  }

  /** Drops the trailing whitespace: what remains is a prefix that ends with a non-space. */
  function TrimEnd(s: string): (r: string)
    ensures |r| <= |s| && r == s[..|r|]
    ensures AllSpace(s[|r|..])
    ensures r == [] || !IsSpace(r[|r| - 1])
  {
    if s != [] && IsSpace(s[|s| - 1]) then TrimEnd(s[..|s| - 1]) else s
  }

  /** `s.trim()` */
  function Trim(s: string): (r: string)
    ensures |r| <= |s|
    ensures r == [] || (!IsSpace(r[0]) && !IsSpace(r[|r| - 1]))
  {
    TrimEnd(TrimStart(s))
  }

  lemma {:induction false} TrimStartPadded(a: string, k: string)
    requires AllSpace(a)
    requires k == [] || !IsSpace(k[0])
    ensures TrimStart(a + k) == k
  {
    if a != [] {
      assert (a + k)[1..] == a[1..] + k;
      TrimStartPadded(a[1..], k);
    }
  }

  lemma {:induction false} TrimEndPadded(k: string, b: string)
    requires AllSpace(b)
    requires k == [] || !IsSpace(k[|k| - 1])
    ensures TrimEnd(k + b) == k
  {
    if b != [] {
      assert (k + b)[..|k + b| - 1] == k + b[..|b| - 1];
      TrimEndPadded(k, b[..|b| - 1]);
    } else {
      assert k + b == k;
    }
  }

  /** Trimming a word padded on both sides by whitespace gives back the word. */
  lemma TrimPadded(a: string, k: string, b: string)
    requires AllSpace(a) && AllSpace(b)
    requires k == [] || (!IsSpace(k[0]) && !IsSpace(k[|k| - 1]))
    ensures Trim(a + k + b) == k
  {
    if k == [] {
      assert a + k + b == (a + b) + [];
      TrimStartPadded(a + b, []);
    } else {
      assert a + k + b == a + (k + b);
      TrimStartPadded(a, k + b);
      TrimEndPadded(k, b);
    }
  }

  /** The result of `Trim` is what is left after removing a whitespace prefix and a whitespace suffix. */
  lemma TrimIsInfix(s: string)
    ensures var r := Trim(s);
      exists i, j :: 0 <= i <= j <= |s| && r == s[i..j] && AllSpace(s[..i]) && AllSpace(s[j..])
    ensures var r := Trim(s); r == [] || (!IsSpace(r[0]) && !IsSpace(r[|r| - 1]))
  {
    var t := TrimStart(s);
    var r := TrimEnd(t);
    var i := |s| - |t|;
    var j := i + |r|;
    assert r == s[i..j];
    assert s[j..] == t[|r|..];
  }

  predicate OccursAt(s: string, pat: string, i: nat) {
    i + |pat| <= |s| && s[i..i + |pat|] == pat
  }

  /** `s.indexOf(pat, from)`: the first position at or after `from` where `pat` occurs. */
  function IndexOf(s: string, pat: string, from: nat): (r: Option<nat>)
    decreases |s| - from
    ensures r.Some? ==> from <= r.value && OccursAt(s, pat, r.value)
    ensures forall i :: from <= i && (r.None? || i < r.value) ==> !OccursAt(s, pat, i)
  {
    if from + |pat| > |s| then None
    else if s[from..from + |pat|] == pat then Some(from)
    else IndexOf(s, pat, from + 1)
  }

  /** `s.replace(pat, "")`: removes the first occurrence of `pat`, if there is one. */
  function RemoveFirst(s: string, pat: string): (r: string)
    ensures IndexOf(s, pat, 0).None? ==> r == s
    ensures IndexOf(s, pat, 0).Some? ==> |r| == |s| - |pat|
    ensures IndexOf(s, pat, 0).Some? ==>
      var i := IndexOf(s, pat, 0).value;
      i <= |r| && s == r[..i] + pat + r[i..]
  {
    match IndexOf(s, pat, 0)
    case None => s
    case Some(i) =>
      var r := s[..i] + s[i + |pat|..];
      assert r[..i] == s[..i];
      assert r[i..] == s[i + |pat|..];
      assert s == s[..i] + s[i..i + |pat|] + s[i + |pat|..];
      r
  }

  /** Concatenation regroups: the one associativity fact the proofs call on. */
  lemma Asociativa<T>(x: seq<T>, y: seq<T>, z: seq<T>)
    ensures x + (y + z) == x + y + z
  {
  }

  /** A pattern that starts with a non-space and follows only whitespace is the first occurrence. */
  lemma RemoveFirstAfterSpace(a: string, pat: string, x: string)
    requires AllSpace(a) && pat != [] && !IsSpace(pat[0])
    ensures RemoveFirst(a + pat + x, pat) == a + x
  {
    var s := a + pat + x;
    assert OccursAt(s, pat, |a|) by {
      assert s[|a|..|a| + |pat|] == pat;
    }
    forall i: nat | i < |a| ensures !OccursAt(s, pat, i) {
      assert s[i] == a[i];
    }
    assert IndexOf(s, pat, 0) == Some(|a|);
    var r := RemoveFirst(s, pat);
    assert r[..|a|] == a by { assert s[..|a|] == a; }
    assert r[|a|..] == x by { assert s[|a| + |pat|..] == x; }
    assert r == r[..|a|] + r[|a|..];
  }

  /** A pattern found at the very start is the first occurrence, so exactly it goes. */
  lemma RemoveFirstPrefix(pat: string, x: string)
    ensures RemoveFirst(pat + x, pat) == x
  {
    assert OccursAt(pat + x, pat, 0);
  }
}
