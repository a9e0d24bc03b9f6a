/** The array methods the dashboard builds on: `filter` and `slice(0, n)`,
    with the facts about them the views rely on. */
module Secuencias {

  /** `a` is `b` with some elements left out, in the same order. */
  predicate EsSubsecuencia<T(==)>(a: seq<T>, b: seq<T>)
    decreases |b|
  {
    a == [] || (|b| > 0 && ((a[0] == b[0] && EsSubsecuencia(a[1..], b[1..])) || EsSubsecuencia(a, b[1..])))
  }

  /** `s.filter(p)`: the elements of `s` that satisfy `p`, in order. */
  function Filtrar<T(!new)>(s: seq<T>, p: T -> bool): (r: seq<T>)
    ensures |r| <= |s|
    ensures forall x :: x in r <==> x in s && p(x)
  {
    if s == [] then [] else (if p(s[0]) then [s[0]] else []) + Filtrar(s[1..], p)
  }

  /** `s.slice(0, n)`: the first `n` elements, or all of them when there are fewer. */
  function Primeros<T>(s: seq<T>, n: nat): (r: seq<T>)
    ensures |r| == if |s| < n then |s| else n
    ensures forall i :: 0 <= i < |r| ==> r[i] == s[i]
    ensures forall x :: x in r ==> x in s
  {
    if |s| <= n then s else s[..n]
  }

  /** The first `n` take nothing more often than the whole list has it. */
  lemma PrimerosSubmultiset<T>(s: seq<T>, n: nat)
    ensures multiset(Primeros(s, n)) <= multiset(s)
  {
    if |s| > n {
      assert s == s[..n] + s[n..];
    }
  }

  lemma {:induction false} FiltrarEsSubsecuencia<T(!new)>(s: seq<T>, p: T -> bool)
    ensures EsSubsecuencia(Filtrar(s, p), s)
  {
    if s != [] {
      FiltrarEsSubsecuencia(s[1..], p);
      var a := Filtrar(s, p);
      if p(s[0]) {
        assert a == [s[0]] + Filtrar(s[1..], p);
        assert a[0] == s[0] && a[1..] == Filtrar(s[1..], p);
      } else {
        assert a == Filtrar(s[1..], p);
      }
    }
  }

  /** Nothing is dropped when every element passes. */
  lemma {:induction false} FiltrarTodos<T(!new)>(s: seq<T>, p: T -> bool)
    requires forall x :: x in s ==> p(x)
    ensures Filtrar(s, p) == s
  {
    if s != [] {
      FiltrarTodos(s[1..], p);
      assert s == [s[0]] + s[1..];
    }
  }

  /** Filtering twice with the same test is filtering once. */
  lemma FiltrarIdempotente<T(!new)>(s: seq<T>, p: T -> bool)
    ensures Filtrar(Filtrar(s, p), p) == Filtrar(s, p)
  {
    FiltrarTodos(Filtrar(s, p), p);
  }

  lemma {:induction false} FiltrarConcatenacion<T(!new)>(a: seq<T>, b: seq<T>, p: T -> bool)
    ensures Filtrar(a + b, p) == Filtrar(a, p) + Filtrar(b, p)
  {
    if a != [] {
      assert (a + b)[1..] == a[1..] + b;
      FiltrarConcatenacion(a[1..], b, p);
    } else {
      assert a + b == b;
    }
  }

  /** A weaker test keeps at least as many elements. */
  lemma {:induction false} FiltrarMonotono<T(!new)>(s: seq<T>, p: T -> bool, q: T -> bool)
    requires forall x :: x in s && p(x) ==> q(x)
    ensures |Filtrar(s, p)| <= |Filtrar(s, q)|
  {
    if s != [] { FiltrarMonotono(s[1..], p, q); }
  }

  /** Elements passing `r` pass `p` or `q`, so `r` keeps no more than the two together. */
  lemma {:induction false} FiltrarUnion<T(!new)>(s: seq<T>, p: T -> bool, q: T -> bool, r: T -> bool)
    requires forall x :: x in s && r(x) ==> p(x) || q(x)
    ensures |Filtrar(s, r)| <= |Filtrar(s, p)| + |Filtrar(s, q)|
  {
    if s != [] { FiltrarUnion(s[1..], p, q, r); }
  }

  /** Three tests no element passes two of keep, together, no more than `s` holds. */
  lemma {:induction false} FiltrarDisjuntos<T(!new)>(s: seq<T>, p: T -> bool, q: T -> bool, r: T -> bool)
    requires forall x :: x in s ==> !(p(x) && q(x)) && !(p(x) && r(x)) && !(q(x) && r(x))
    ensures |Filtrar(s, p)| + |Filtrar(s, q)| + |Filtrar(s, r)| <= |s|
  {
    if s != [] { FiltrarDisjuntos(s[1..], p, q, r); }
  }

  /** Nothing is kept when no element passes. */
  lemma {:induction false} FiltrarNinguno<T(!new)>(s: seq<T>, p: T -> bool)
    requires forall x :: x in s ==> !p(x)
    ensures Filtrar(s, p) == []
  {
    if s != [] {
      FiltrarNinguno(s[1..], p);
    }
  }

  /** Something passes exactly when the filtered list is not empty. */
  lemma FiltrarNoVacio<T(!new)>(s: seq<T>, p: T -> bool)
    ensures |Filtrar(s, p)| > 0 <==> exists x :: x in s && p(x)
  {
    if |Filtrar(s, p)| > 0 {
      assert Filtrar(s, p)[0] in Filtrar(s, p);
    }
  }

  lemma FiltrarCuatro<T(!new)>(a: seq<T>, b: seq<T>, c: seq<T>, d: seq<T>, p: T -> bool)
    ensures Filtrar(a + b + c + d, p) == Filtrar(a, p) + Filtrar(b, p) + Filtrar(c, p) + Filtrar(d, p)
  {
    FiltrarConcatenacion(a + b + c, d, p);
    FiltrarConcatenacion(a + b, c, p);
    FiltrarConcatenacion(a, b, p);
  }
}
