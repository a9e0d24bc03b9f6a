/** String helpers behind the dashboard's matching rules: JavaScript's
    `toLowerCase`, `includes`, `trim`, number-to-text conversion and the
    order in which the default `Array.prototype.sort` places strings. */
module Texto {

  /** `toLowerCase` on one character, for ASCII and the Latin-1 supplement
      (which holds every accented capital used in Spanish). */
  function MinusculaChar(c: char): char
  {
    if EsMayuscula(c) then (c as int + 32) as char else c
  }

  /** The capitals `MinusculaChar` lowers. */
  predicate EsMayuscula(c: char)
  {
    'A' <= c <= 'Z' || ('\U{C0}' <= c <= '\U{DE}' && c != '\U{D7}')
  }

  /** `s.toLowerCase()`, character by character: same length, no capital
      left, every other character kept. */
  function Minuscula(s: string): (r: string)
    ensures |r| == |s|
    ensures forall i :: 0 <= i < |r| ==> !EsMayuscula(r[i])
    ensures forall i :: 0 <= i < |s| && !EsMayuscula(s[i]) ==> r[i] == s[i]
  {
    seq(|s|, i requires 0 <= i < |s| => MinusculaChar(s[i]))
  }

  lemma MinusculaIdempotente(s: string)
    ensures Minuscula(Minuscula(s)) == Minuscula(s)
  {
  }

  /** `p` is a prefix of `s`. */
  predicate EsPrefijo(p: string, s: string)
  {
    |p| <= |s| && s[..|p|] == p
  }

  /** `s.includes(q)`: `q` occurs in `s` starting at some position. */
  predicate Incluye(s: string, q: string)
    ensures q == [] ==> Incluye(s, q)
    decreases |s|
  {
    EsPrefijo(q, s) || (|s| > 0 && Incluye(s[1..], q))
  }

  /** `q` is the window of `s` that starts at `i`. */
  predicate VentanaEn(s: string, q: string, i: int)
  {
    0 <= i && i + |q| <= |s| && s[i..i + |q|] == q
  }

  /** `Incluye` means what `includes` promises: some window of `s` is `q`. */
  lemma {:induction false} IncluyeSiiVentana(s: string, q: string)
    ensures Incluye(s, q) <==> exists i :: VentanaEn(s, q, i)
  {
    if Incluye(s, q) {
      if EsPrefijo(q, s) {
        assert VentanaEn(s, q, 0);
      } else {
        IncluyeSiiVentana(s[1..], q);
        var i :| VentanaEn(s[1..], q, i);
        assert s[1..][i..i + |q|] == s[i + 1..i + 1 + |q|];
        assert VentanaEn(s, q, i + 1);
      }
    }
    if exists i :: VentanaEn(s, q, i) {
      var i :| VentanaEn(s, q, i);
      if i == 0 {
        assert EsPrefijo(q, s);
      } else {
        assert s[1..][i - 1..i - 1 + |q|] == s[i..i + |q|];
        assert VentanaEn(s[1..], q, i - 1);
        IncluyeSiiVentana(s[1..], q);
      }
    }
  }

  /** `q` occurs in `s` when it occurs at position `i`. */
  lemma IncluyeEn(s: string, q: string, i: int)
    requires VentanaEn(s, q, i)
    ensures Incluye(s, q)
  {
    IncluyeSiiVentana(s, q);
  }

  /** The white space `String.prototype.trim` removes: the ECMAScript
      WhiteSpace and LineTerminator characters. */
  predicate EsEspacio(c: char)
  {
    ('\t' <= c <= '\r') || c == ' ' || c == '\U{A0}' || c == '\U{1680}'
    || ('\U{2000}' <= c <= '\U{200A}') || c == '\U{2028}' || c == '\U{2029}'
    || c == '\U{202F}' || c == '\U{205F}' || c == '\U{3000}' || c == '\U{FEFF}'
  }

  /** `s.trimStart()`: `s` without its leading white space. */
  function RecortarInicio(s: string): (r: string)
    ensures |r| <= |s| && r == s[|s| - |r|..]
    ensures forall i :: 0 <= i < |s| - |r| ==> EsEspacio(s[i])
    ensures r == [] || !EsEspacio(r[0])
  {
    if |s| > 0 && EsEspacio(s[0]) then RecortarInicio(s[1..]) else s
  }

  /** `s.trimEnd()`: `s` without its trailing white space. */
  function RecortarFin(s: string): (r: string)
    ensures |r| <= |s| && r == s[..|r|]
    ensures forall i :: |r| <= i < |s| ==> EsEspacio(s[i])
    ensures r == [] || !EsEspacio(r[|r| - 1])
  {
    if |s| > 0 && EsEspacio(s[|s| - 1]) then RecortarFin(s[..|s| - 1]) else s
  }

  /** `r` is the infix of `s` starting at `k`, and everything of `s`
      before and after it is white space. */
  predicate EsRecorte(s: string, r: string, k: int)
  {
    0 <= k && k + |r| <= |s| && r == s[k..k + |r|]
    && (forall i :: 0 <= i < k ==> EsEspacio(s[i]))
    && (forall i :: k + |r| <= i < |s| ==> EsEspacio(s[i]))
  }

  /** Trimming the start and then the end leaves an infix with only white
      space around it. */
  lemma RecorteDe(s: string, t: string, r: string)
    requires |t| <= |s| && t == s[|s| - |t|..] && forall i :: 0 <= i < |s| - |t| ==> EsEspacio(s[i])
    requires |r| <= |t| && r == t[..|r|] && forall i :: |r| <= i < |t| ==> EsEspacio(t[i])
    requires (t == [] || !EsEspacio(t[0])) && (r == [] || !EsEspacio(r[|r| - 1]))
    ensures EsRecorte(s, r, |s| - |t|)
    ensures r == [] || (!EsEspacio(r[0]) && !EsEspacio(r[|r| - 1]))
  {
    assert r != [] ==> r[0] == t[0];
    var k := |s| - |t|;
    assert r == s[k..k + |r|];
    forall i | k + |r| <= i < |s| ensures EsEspacio(s[i]) {
      assert s[i] == t[i - k];
    }
  }

  /** `s.trim()`: the infix of `s` that neither starts nor ends with white
      space, everything cut off being white space. */
  function Recortar(s: string): (r: string)
    ensures exists k :: EsRecorte(s, r, k)
    ensures r == [] || (!EsEspacio(r[0]) && !EsEspacio(r[|r| - 1]))
  {
    var t := RecortarInicio(s);
    var r := RecortarFin(t);
    RecorteDe(s, t, r);
    r
  }

  /** A string that starts with a character other than white space, and
      whose first `m` characters end with one, is trimmed to those `m`
      when only white space follows. */
  lemma RecortarFinal(s: string, m: nat)
    requires 0 < m <= |s| && !EsEspacio(s[0]) && !EsEspacio(s[m - 1])
    requires forall i :: m <= i < |s| ==> EsEspacio(s[i])
    ensures Recortar(s) == s[..m]
  {
    var r := Recortar(s);
    var k :| EsRecorte(s, r, k);
    assert k == 0;
    assert r != [];
    assert r[|r| - 1] == s[|r| - 1];
    assert |r| == m;
  }

  /** The decimal digit `d`. */
  function Digito(d: nat): char
    requires d < 10
  {
    ('0' as int + d) as char
  }

  predicate SoloDigitos(s: string)
  {
    forall i :: 0 <= i < |s| ==> '0' <= s[i] <= '9'
  }

  /** `${n}` for a non-negative integer: its decimal digits, without
      leading zeros. */
  function NatATexto(n: nat): (r: string)
    ensures |r| >= 1 && SoloDigitos(r)
    ensures r[0] == '0' ==> n == 0
  {
    if n < 10 then [Digito(n)] else NatATexto(n / 10) + [Digito(n % 10)]
  }

  /** The number a string of decimal digits stands for. */
  function TextoANat(s: string): nat
    requires SoloDigitos(s)
  {
    if s == [] then 0 else 10 * TextoANat(s[..|s| - 1]) + (s[|s| - 1] as int - '0' as int)
  }

  /** Reading back the digits of `n` gives `n`. */
  lemma {:induction false} TextoANatDeNatATexto(n: nat)
    ensures TextoANat(NatATexto(n)) == n
  {
    if n >= 10 {
      var r := NatATexto(n);
      assert r[..|r| - 1] == NatATexto(n / 10);
      TextoANatDeNatATexto(n / 10);
    }
  }

  /** `s` left-padded with '0' to at least `w` characters. */
  function RellenarCeros(s: string, w: nat): (r: string)
    ensures |r| == if |s| < w then w else |s|
    ensures r[|r| - |s|..] == s
    decreases w - |s|
  {
    if |s| < w then
      var r := RellenarCeros("0" + s, w);
      assert r[|r| - |s|..] == r[|r| - |s| - 1..][1..] == ("0" + s)[1..] == s;
      r
    else s
  }

  /** The padding `RellenarCeros` adds is all '0'. */
  lemma {:induction false} RellenarCerosCeros(s: string, w: nat)
    ensures forall i :: 0 <= i < |RellenarCeros(s, w)| - |s| ==> RellenarCeros(s, w)[i] == '0'
    decreases w - |s|
  {
    if |s| < w {
      var t := "0" + s;
      RellenarCerosCeros(t, w);
      assert RellenarCeros(s, w) == RellenarCeros(t, w);
      UnCeroMas(RellenarCeros(t, w), s);
    }
  }

  /** A run of '0' followed by `"0" + s` is a longer run followed by `s`. */
  lemma UnCeroMas(r: string, s: string)
    requires |s| < |r| && r[|r| - |s| - 1..] == "0" + s
    requires forall i :: 0 <= i < |r| - |s| - 1 ==> r[i] == '0'
    ensures forall i :: 0 <= i < |r| - |s| ==> r[i] == '0'
  {
    var j := |r| - |s| - 1;
    assert r[j] == r[j..][0] == ("0" + s)[0];
  }

  /** `a` sorts before `b` under the default comparison of JavaScript's
      `sort`: character by character, a proper prefix first. */
  predicate Precede(a: string, b: string)
    decreases |a|
  {
    |b| > 0 && (|a| == 0 || a[0] < b[0] || (a[0] == b[0] && Precede(a[1..], b[1..])))
  }

  lemma {:induction false} PrecedeIrreflexivo(a: string)
    ensures !Precede(a, a)
  {
    if |a| > 0 { PrecedeIrreflexivo(a[1..]); }
  }

  lemma {:induction false} PrecedeAsimetrico(a: string, b: string)
    ensures !(Precede(a, b) && Precede(b, a))
  {
    if |a| > 0 && |b| > 0 && a[0] == b[0] { PrecedeAsimetrico(a[1..], b[1..]); }
  }

  /** Any two different strings are ordered one way or the other. */
  lemma {:induction false} PrecedeTotal(a: string, b: string)
    ensures a == b || Precede(a, b) || Precede(b, a)
  {
    if |a| > 0 && |b| > 0 && a[0] == b[0] {
      PrecedeTotal(a[1..], b[1..]);
      if a[1..] == b[1..] {
        assert a == [a[0]] + a[1..] && b == [b[0]] + b[1..];
      }
    }
  }

  lemma {:induction false} PrecedeTransitivo(a: string, b: string, c: string)
    requires Precede(a, b) && Precede(b, c)
    ensures Precede(a, c)
  {
    if |a| > 0 && a[0] == b[0] && b[0] == c[0] {
      PrecedeTransitivo(a[1..], b[1..], c[1..]);
    }
  }

  /** A string never contains a longer one. */
  lemma {:induction false} NoIncluyeMasLargo(s: string, q: string)
    requires |s| < |q|
    ensures !Incluye(s, q)
  {
    if |s| > 0 { NoIncluyeMasLargo(s[1..], q); }
  }
}
