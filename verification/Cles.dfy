/** State keys and paths are strings; reports and owner lists are kept in the order of Go's
    `sort.Strings`.  This module defines that order, the sort, and the one sorted listing of a set. */
module Cles {

  type Cle = string

  /** Strict lexicographic order by code point (the order of the UTF-8 bytes). */
  predicate Avant(a: string, b: string) {
    if b == "" then false
    else if a == "" then true
    else if a[0] != b[0] then a[0] < b[0]
    else Avant(a[1..], b[1..])
  }

  lemma {:induction false} AvantTotal(a: string, b: string)
    ensures a == b || Avant(a, b) || Avant(b, a)
    ensures !(Avant(a, b) && Avant(b, a)) && !Avant(a, a)
  {
    if a != "" && b != "" {
      AvantTotal(a[1..], b[1..]);
      AvantTotal(a[1..], a[1..]);
      assert a == [a[0]] + a[1..] && b == [b[0]] + b[1..];
    } else if a != "" {
      AvantTotal(a[1..], a[1..]);
    }
  }

  lemma {:induction false} AvantTransitif(a: string, b: string, c: string)
    requires Avant(a, b) && Avant(b, c)
    ensures Avant(a, c)
  {
    if a != "" && a[0] == b[0] == c[0] {
      AvantTransitif(a[1..], b[1..], c[1..]);
    }
  }

  /** The order in plain words: at the first difference the smaller character, or else the shorter text. */
  lemma {:induction false} AvantDit(a: string, b: string, k: nat)
    requires k <= |a| && k <= |b| && a[..k] == b[..k]
    ensures k < |a| && k < |b| && a[k] != b[k] ==> (Avant(a, b) <==> a[k] < b[k])
    ensures k == |a| ==> (Avant(a, b) <==> |a| < |b|)
    ensures k == |b| ==> !Avant(a, b)
  {
    if k > 0 {
      assert a[0] == a[..k][0] == b[..k][0] == b[0];
      assert a[1..][..k - 1] == a[..k][1..] && b[1..][..k - 1] == b[..k][1..];
      AvantDit(a[1..], b[1..], k - 1);
    }
  }

  ghost predicate Croissante(l: seq<string>) {
    forall i, j | 0 <= i < j < |l| :: Avant(l[i], l[j])
  }

  ghost function Elements<T>(l: seq<T>): set<T> {
    set x | x in l
  }

  lemma MapsEgales<K, V>(a: map<K, V>, b: map<K, V>)
    requires forall p :: p in a <==> p in b
    requires forall p | p in a :: a[p] == b[p]
    ensures a == b
  {
  }

  /** The map that holds `f` of each key; map comprehensions are left alone, since Dafny takes two equal ones to agree
      outside their domains too. */
  ghost function Tableau<V>(s: set<string>, f: string --> V): (m: map<string, V>)
    requires forall k | k in s :: f.requires(k)
    ensures m.Keys == s && forall k | k in s :: m[k] == f(k)
  {
    if s == {} then map[]
    else
      var k :| k in s;
      Tableau(s - {k}, f)[k := f(k)]
  }

  lemma ElementsVide<T>(l: seq<T>)
    ensures Elements(l) == {} <==> l == []
  {
    assert l != [] ==> l[0] in Elements(l);
  }

  lemma {:induction false} MinimumExiste(s: set<string>) returns (m: string)
    requires s != {}
    ensures m in s && forall x | x in s :: x == m || Avant(m, x)
  {
    m :| m in s;
    if s != {m} {
      var n := MinimumExiste(s - {m});
      AvantTotal(m, n);
      forall x | x in s ensures x == (if Avant(m, n) then m else n) || Avant(if Avant(m, n) then m else n, x) {
        if x != m && x != n && Avant(m, n) { AvantTransitif(m, n, x); }
      }
      m := if Avant(m, n) then m else n;
    }
  }

  ghost function Minimum(s: set<string>): (m: string)
    requires s != {}
    ensures m in s && forall x | x in s :: x == m || Avant(m, x)
  {
    assert exists m :: m in s && forall x | x in s :: x == m || Avant(m, x) by { var m := MinimumExiste(s); }
    var m :| m in s && forall x | x in s :: x == m || Avant(m, x);
    m
  }

  /** The sorted listing of a set: its only strictly increasing enumeration. */
  ghost function Canon(s: set<string>): (l: seq<string>)
    ensures Croissante(l) && Elements(l) == s && |l| == |s|
  {
    if s == {} then []
    else
      var m := Minimum(s);
      var r := Canon(s - {m});
      CanonSuite(s, m, r);
      [m] + r
  }

  lemma CanonSuite(s: set<string>, m: string, r: seq<string>)
    requires m in s && (forall x | x in s :: x == m || Avant(m, x)) && Croissante(r) && Elements(r) == s - {m}
    ensures Croissante([m] + r) && Elements([m] + r) == s
  {
    hide Avant;
    assert forall x :: x in r <==> x in Elements(r);
    assert forall x :: x in [m] + r <==> x == m || x in r;
    assert forall i | 0 <= i < |r| :: r[i] in r;
  }

  lemma {:induction false} CroissanteUnique(k: seq<string>, l: seq<string>)
    requires Croissante(k) && Croissante(l) && Elements(k) == Elements(l)
    ensures k == l
  {
    if k == [] {
      ElementsVide(l);
    } else {
      assert k[0] in Elements(l);
      assert l != [] && l[0] in Elements(k);
      var i :| 0 <= i < |l| && l[i] == k[0];
      var j :| 0 <= j < |k| && k[j] == l[0];
      AvantTotal(k[0], l[0]);
      forall x ensures x in Elements(k[1..]) <==> x in Elements(l[1..]) {
        AvantTotal(x, x);
        if x in k[1..] { assert x in Elements(l); }
        if x in l[1..] { assert x in Elements(k); }
      }
      CroissanteUnique(k[1..], l[1..]);
    }
  }

  lemma CanonUnique(l: seq<string>, s: set<string>)
    requires Croissante(l) && Elements(l) == s
    ensures l == Canon(s)
  {
    CroissanteUnique(l, Canon(s));
  }

  // --- sort.Strings ---------------------------------------------------------

  function Inserer(x: string, l: seq<string>): (r: seq<string>)
    ensures multiset(r) == multiset{x} + multiset(l)
  {
    if l == [] then [x]
    else if Avant(l[0], x) then
      assert l == [l[0]] + l[1..];
      [l[0]] + Inserer(x, l[1..])
    else [x] + l
  }

  function Trier(l: seq<string>): (r: seq<string>)
    ensures multiset(r) == multiset(l)
  {
    if l == [] then [] else
      assert l == [l[0]] + l[1..];
      Inserer(l[0], Trier(l[1..]))
  }

  lemma {:induction false} InsererCroissante(x: string, l: seq<string>)
    requires Croissante(l) && x !in l
    ensures Croissante(Inserer(x, l))
  {
    if l != [] {
      AvantTotal(l[0], x);
      if Avant(l[0], x) {
        var r := Inserer(x, l[1..]);
        InsererCroissante(x, l[1..]);
        forall y | y in r ensures Avant(l[0], y) {
          assert y in multiset(r);
          if y != x { assert y in l[1..]; }
        }
      } else {
        forall y | y in l ensures Avant(x, y) {
          if y != l[0] { AvantTransitif(x, l[0], y); }
        }
      }
    }
  }

  /** Sorting a list without repetition gives the sorted listing of its elements. */
  lemma {:induction false} TrierCanon(l: seq<string>)
    requires forall i, j | 0 <= i < j < |l| :: l[i] != l[j]
    ensures Trier(l) == Canon(Elements(l))
  {
    TrierCroissante(l);
    forall x ensures x in Trier(l) <==> x in l {
      assert x in multiset(Trier(l)) <==> x in multiset(l);
    }
    CanonUnique(Trier(l), Elements(l));
  }

  lemma {:induction false} TrierCroissante(l: seq<string>)
    requires forall i, j | 0 <= i < j < |l| :: l[i] != l[j]
    ensures Croissante(Trier(l))
  {
    if l != [] {
      var t := Trier(l[1..]);
      TrierCroissante(l[1..]);
      assert forall x :: x in t <==> x in multiset(t);
      assert forall x :: x in l[1..] <==> x in multiset(l[1..]);
      InsererCroissante(l[0], t);
    }
  }
}
