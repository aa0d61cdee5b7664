/** The stable `Array.prototype.sort` the pages use, with a comparator that
    reads one key per element and tests `a < b` and `a > b`: ascending, or
    descending when the two results are swapped. */
module Ordenacao {
  import opened Textos

  /** A sort key: a string, a number, or an `Invalid Date` (NaN), for which
      every comparison is false. */
  datatype Chave = Texto(t: string) | Numero(n: real) | Indefinida

  /** `a < b` on keys of the same kind; a number is taken below a string
      (the pages never compare the two). */
  predicate Lt(a: Chave, b: Chave)
  {
    match (a, b)
    case (Texto(x), Texto(y)) => LexLess(x, y)
    case (Numero(x), Numero(y)) => x < y
    case (Numero(_), Texto(_)) => true
    case _ => false
  }

  /** `a` must come strictly before `b` in the requested direction. */
  predicate Precede(a: Chave, b: Chave, desc: bool)
  {
    if desc then Lt(b, a) else Lt(a, b)
  }

  predicate Definida(c: Chave) { !c.Indefinida? }

  /** Nothing later in `xs` must come before anything earlier. */
  predicate Ordenada<T>(xs: seq<T>, k: T -> Chave, desc: bool)
  {
    forall i, j :: 0 <= i < j < |xs| ==> !Precede(k(xs[j]), k(xs[i]), desc)
  }

  lemma LtAssimetrica(a: Chave, b: Chave)
    ensures !(Lt(a, b) && Lt(b, a))
  {
    if a.Texto? && b.Texto? && LexLess(a.t, b.t) && LexLess(b.t, a.t) {
      LexLessTransitive(a.t, b.t, a.t);
      LexLessIrreflexive(a.t);
    }
  }

  /** On defined keys "not before" is transitive, so `Lt` is a strict weak order. */
  lemma NaoPrecedeTransitiva(a: Chave, b: Chave, c: Chave, desc: bool)
    requires Definida(a) && Definida(b) && Definida(c)
    requires !Precede(a, b, desc) && !Precede(b, c, desc)
    ensures !Precede(a, c, desc)
  {
    if desc {
      NaoLtTransitiva(c, b, a);
    } else {
      NaoLtTransitiva(a, b, c);
    }
  }

  lemma NaoLtTransitiva(a: Chave, b: Chave, c: Chave)
    requires Definida(a) && Definida(b) && Definida(c)
    requires !Lt(a, b) && !Lt(b, c)
    ensures !Lt(a, c)
  {
    match (a, b, c)
    case (Texto(x), Texto(y), Texto(z)) =>
      LexLessTotal(x, y);
      if LexLess(x, z) && LexLess(y, x) {
        LexLessTransitive(y, x, z);
      }
    case _ =>
  }

  /** Inserts `x` after every element that must precede it and before the
      rest, so elements with equal keys keep their order. */
  function Inserir<T>(x: T, ys: seq<T>, k: T -> Chave, desc: bool): (r: seq<T>)
    ensures multiset(r) == multiset(ys) + multiset{x}
    ensures |r| == |ys| + 1
  {
    if ys == [] || !Precede(k(ys[0]), k(x), desc) then [x] + ys
    else
      assert ys == [ys[0]] + ys[1..];
      [ys[0]] + Inserir(x, ys[1..], k, desc)
  }

  /** `[...xs].sort(comparator)`. */
  function OrdenarPor<T>(xs: seq<T>, k: T -> Chave, desc: bool): (r: seq<T>)
    ensures multiset(r) == multiset(xs)
    ensures |r| == |xs|
  {
    if xs == [] then []
    else
      assert xs == [xs[0]] + xs[1..];
      Inserir(xs[0], OrdenarPor(xs[1..], k, desc), k, desc)
  }

  lemma CaudaOrdenada<T>(ys: seq<T>, k: T -> Chave, desc: bool)
    requires ys != [] && Ordenada(ys, k, desc)
    ensures Ordenada(ys[1..], k, desc)
  {
    forall i, j | 0 <= i < j < |ys[1..]| ensures !Precede(k(ys[1..][j]), k(ys[1..][i]), desc) {
      assert ys[1..][i] == ys[i + 1] && ys[1..][j] == ys[j + 1];
    }
  }

  /** A prefix of an ordered list is ordered. */
  lemma PrefixoOrdenado<T>(xs: seq<T>, k: T -> Chave, desc: bool, n: nat)
    requires n <= |xs| && Ordenada(xs, k, desc)
    ensures Ordenada(xs[..n], k, desc)
  {
    forall i, j | 0 <= i < j < n ensures !Precede(k(xs[..n][j]), k(xs[..n][i]), desc) {
      assert xs[..n][i] == xs[i] && xs[..n][j] == xs[j];
    }
  }

  /** In an ordered list, nothing left out of the first `n` elements must
      precede one of them. */
  lemma OmitidoNaoPrecede<T>(xs: seq<T>, k: T -> Chave, desc: bool, n: nat, s: T, i: nat)
    requires Ordenada(xs, k, desc) && i < n <= |xs|
    requires s in multiset(xs) - multiset(xs[..n])
    ensures !Precede(k(s), k(xs[i]), desc)
  {
    assert xs == xs[..n] + xs[n..];
    assert multiset(xs) == multiset(xs[..n]) + multiset(xs[n..]);
    assert s in multiset(xs[n..]);
    var j :| 0 <= j < |xs[n..]| && xs[n..][j] == s;
    assert xs[n + j] == s;
  }

  /** Putting in front an element nothing must precede keeps a list ordered. */
  lemma PrefixarOrdenada<T>(y: T, zs: seq<T>, k: T -> Chave, desc: bool)
    requires Ordenada(zs, k, desc)
    requires forall j :: 0 <= j < |zs| ==> !Precede(k(zs[j]), k(y), desc)
    ensures Ordenada([y] + zs, k, desc)
  {
    var r := [y] + zs;
    forall i, j | 0 <= i < j < |r| ensures !Precede(k(r[j]), k(r[i]), desc) {
      if i == 0 {
        assert r[j] == zs[j - 1];
      } else {
        assert r[i] == zs[i - 1] && r[j] == zs[j - 1];
      }
    }
  }

  lemma {:induction false} InserirOrdenada<T>(x: T, ys: seq<T>, k: T -> Chave, desc: bool)
    requires Ordenada(ys, k, desc)
    requires Definida(k(x)) && forall i :: 0 <= i < |ys| ==> Definida(k(ys[i]))
    ensures Ordenada(Inserir(x, ys, k, desc), k, desc)
  {
    if ys == [] {
    } else if !Precede(k(ys[0]), k(x), desc) {
      forall j | 0 <= j < |ys| ensures !Precede(k(ys[j]), k(x), desc) {
        if j > 0 {
          NaoPrecedeTransitiva(k(ys[j]), k(ys[0]), k(x), desc);
        }
      }
      PrefixarOrdenada(x, ys, k, desc);
    } else {
      CaudaOrdenada(ys, k, desc);
      InserirOrdenada(x, ys[1..], k, desc);
      var resto := Inserir(x, ys[1..], k, desc);
      forall j | 0 <= j < |resto| ensures !Precede(k(resto[j]), k(ys[0]), desc) {
        assert resto[j] in multiset(resto);
        if resto[j] == x {
          LtAssimetrica(k(x), k(ys[0]));
        } else {
          assert resto[j] in multiset(ys[1..]);
          var m :| 0 <= m < |ys[1..]| && ys[1..][m] == resto[j];
          assert ys[m + 1] == resto[j];
        }
      }
      PrefixarOrdenada(ys[0], resto, k, desc);
    }
  }

  /** With defined keys the result is ordered in the requested direction. */
  lemma {:induction false} OrdenarPorOrdena<T>(xs: seq<T>, k: T -> Chave, desc: bool)
    requires forall i :: 0 <= i < |xs| ==> Definida(k(xs[i]))
    ensures Ordenada(OrdenarPor(xs, k, desc), k, desc)
  {
    if xs != [] {
      assert forall i :: 0 <= i < |xs[1..]| ==> Definida(k(xs[1..][i])) by {
        forall i | 0 <= i < |xs[1..]| ensures Definida(k(xs[1..][i])) {
          assert xs[1..][i] == xs[i + 1];
        }
      }
      OrdenarPorOrdena(xs[1..], k, desc);
      var ys := OrdenarPor(xs[1..], k, desc);
      forall i | 0 <= i < |ys| ensures Definida(k(ys[i])) {
        assert ys[i] in multiset(xs[1..]);
        var m :| 0 <= m < |xs[1..]| && xs[1..][m] == ys[i];
        assert xs[m + 1] == ys[i];
      }
      InserirOrdenada(xs[0], ys, k, desc);
    }
  }

  /** An already ordered list is left exactly as it is (on any keys). */
  lemma {:induction false} OrdenarPorOrdenadaIdentidade<T>(xs: seq<T>, k: T -> Chave, desc: bool)
    requires Ordenada(xs, k, desc)
    ensures OrdenarPor(xs, k, desc) == xs
  {
    if xs != [] {
      CaudaOrdenada(xs, k, desc);
      OrdenarPorOrdenadaIdentidade(xs[1..], k, desc);
      if |xs| > 1 {
        assert xs[1..][0] == xs[1];
      }
      assert [xs[0]] + xs[1..] == xs;
    }
  }
}
