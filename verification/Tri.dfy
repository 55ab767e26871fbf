/** The order of application (`SortModules`, policy.go:216-226). */
module Tri {
  import opened Cles
  import opened Etat

  predicate Precede(m: Module, n: Module) {
    if m.applyOrder != n.applyOrder then m.applyOrder < n.applyOrder
    else if m.genre != n.genre then Avant(m.genre, n.genre)
    else Avant(m.stateKey, n.stateKey)
  }

  lemma PrecedeTotal(m: Module, n: Module)
    ensures m.stateKey != n.stateKey ==> Precede(m, n) || Precede(n, m)
    ensures !(Precede(m, n) && Precede(n, m))
  {
    AvantTotal(m.genre, n.genre);
    AvantTotal(m.stateKey, n.stateKey);
  }

  lemma PrecedeTransitif(m: Module, n: Module, o: Module)
    requires Precede(m, n) && Precede(n, o)
    ensures Precede(m, o)
  {
    AvantTotal(m.genre, n.genre);
    AvantTotal(n.genre, o.genre);
    if m.applyOrder == n.applyOrder == o.applyOrder {
      if m.genre != n.genre && n.genre != o.genre {
        AvantTransitif(m.genre, n.genre, o.genre);
        AvantTotal(m.genre, o.genre);
      } else if m.genre == n.genre == o.genre {
        AvantTransitif(m.stateKey, n.stateKey, o.stateKey);
      }
    }
  }

  ghost predicate Ordonnee(l: seq<Module>) {
    forall i, j | 0 <= i < j < |l| :: Precede(l[i], l[j])
  }

  ghost predicate Distinctes(l: seq<Module>) {
    forall i, j | 0 <= i < j < |l| :: l[i].stateKey != l[j].stateKey
  }

  function Placer(x: Module, l: seq<Module>): (r: seq<Module>)
    ensures multiset(r) == multiset(l) + multiset{x}
  {
    if l == [] then [x]
    else
      var n := |l| - 1;
      assert l == l[..n] + [l[n]];
      if Precede(x, l[n]) then Placer(x, l[..n]) + [l[n]] else l + [x]
  }

  function Triee(l: seq<Module>): (r: seq<Module>)
    ensures multiset(r) == multiset(l)
  {
    if l == [] then [] else
      assert l == l[..|l| - 1] + [l[|l| - 1]];
      Placer(l[|l| - 1], Triee(l[..|l| - 1]))
  }

  lemma {:induction false} PlacerOrdonnee(x: Module, l: seq<Module>)
    requires Ordonnee(l) && forall m | m in l :: m.stateKey != x.stateKey
    ensures Ordonnee(Placer(x, l))
  {
    if l != [] {
      var n := |l| - 1;
      if Precede(x, l[n]) {
        PlacerOrdonnee(x, l[..n]);
        forall m | m in Placer(x, l[..n]) ensures Precede(m, l[n]) {
          assert m in multiset(Placer(x, l[..n]));
          assert m == x || m in l[..n];
        }
      } else {
        PrecedeTotal(x, l[n]);
        forall i | 0 <= i < |l| ensures Precede(l[i], x) {
          if i < n { PrecedeTransitif(l[i], l[n], x); }
        }
      }
    }
  }

  lemma {:induction false} TrieeOrdonnee(l: seq<Module>)
    requires Distinctes(l)
    ensures Ordonnee(Triee(l))
  {
    if l != [] {
      var n := |l| - 1;
      TrieeOrdonnee(l[..n]);
      forall m | m in Triee(l[..n]) ensures m.stateKey != l[n].stateKey {
        assert m in multiset(Triee(l[..n]));
        assert m in l[..n];
      }
      PlacerOrdonnee(l[n], Triee(l[..n]));
    }
  }

  lemma {:induction false} OrdonneeUnique(k: seq<Module>, l: seq<Module>)
    requires Ordonnee(k) && Ordonnee(l) && multiset(k) == multiset(l)
    ensures k == l
  {
    assert |k| == |multiset(k)| && |l| == |multiset(l)|;
    if k != [] {
      assert k == [k[0]] + k[1..] && l == [l[0]] + l[1..];
      PremierCommun(k, l);
      OrdonneeUnique(k[1..], l[1..]);
    }
  }

  lemma PremierCommun(k: seq<Module>, l: seq<Module>)
    requires Ordonnee(k) && Ordonnee(l) && multiset(k) == multiset(l) && |k| > 0 && |l| > 0
    ensures k[0] == l[0]
    ensures multiset(k[1..]) == multiset(l[1..])
  {
    assert k[0] in multiset(l) && l[0] in multiset(k);
    var i :| 0 <= i < |l| && l[i] == k[0];
    var j :| 0 <= j < |k| && k[j] == l[0];
    PrecedeTotal(k[0], l[0]);
    assert multiset(k[1..]) == multiset(k) - multiset{k[0]} by { assert k == [k[0]] + k[1..]; }
    assert multiset(l[1..]) == multiset(l) - multiset{l[0]} by { assert l == [l[0]] + l[1..]; }
  }

  /** The order of execution depends only on which modules were received, not on how they came. */
  lemma OrdreSansReception(k: seq<Module>, l: seq<Module>)
    requires Distinctes(k) && Distinctes(l) && multiset(k) == multiset(l)
    ensures Triee(k) == Triee(l) && Ordonnee(Triee(k))
  {
    TrieeOrdonnee(k);
    TrieeOrdonnee(l);
    OrdonneeUnique(Triee(k), Triee(l));
  }

  /** No module that should come later is before. */
  ghost predicate SansInversion(l: seq<Module>) {
    forall i, j | 0 <= i < j < |l| :: !Precede(l[j], l[i])
  }

  lemma PrecedeMal(m: Module, n: Module, o: Module)
    requires Precede(m, n) && !Precede(o, n)
    ensures Precede(m, o)
  {
    AvantTotal(n.genre, o.genre);
    AvantTotal(n.stateKey, o.stateKey);
    if !Precede(n, o) {
      assert n.applyOrder == o.applyOrder && n.genre == o.genre && n.stateKey == o.stateKey;
    } else {
      PrecedeTransitif(m, n, o);
    }
  }

  lemma {:induction false} PlacerSansInversion(x: Module, l: seq<Module>)
    requires SansInversion(l)
    ensures SansInversion(Placer(x, l))
  {
    if l != [] {
      hide Precede;
      var n := |l| - 1;
      if Precede(x, l[n]) {
        PlacerSansInversion(x, l[..n]);
        PrecedeTotal(x, l[n]);
        forall m | m in Placer(x, l[..n]) ensures !Precede(l[n], m) {
          assert m in multiset(Placer(x, l[..n]));
          assert m == x || m in l[..n];
        }
      } else {
        forall i | 0 <= i < |l| ensures !Precede(x, l[i]) {
          if Precede(x, l[i]) { PrecedeMal(x, l[i], l[n]); }
        }
      }
    }
  }

  lemma {:induction false} TrieeCroissante(l: seq<Module>)
    ensures SansInversion(Triee(l))
  {
    if l != [] {
      TrieeCroissante(l[..|l| - 1]);
      PlacerSansInversion(l[|l| - 1], Triee(l[..|l| - 1]));
    }
  }

  /** `m` has this order of application, this type and this state key. */
  predicate AuRang(m: Module, o: int, g: string, k: Cle) {
    m.applyOrder == o && m.genre == g && m.stateKey == k
  }

  /** The modules of one order of application, one type and one state key, in order. */
  ghost function Egaux(l: seq<Module>, o: int, g: string, k: Cle): seq<Module> {
    if l == [] then []
    else Egaux(l[..|l| - 1], o, g, k) + (if AuRang(l[|l| - 1], o, g, k) then [l[|l| - 1]] else [])
  }

  lemma EgauxAjout(l: seq<Module>, x: Module, o: int, g: string, k: Cle)
    ensures Egaux(l + [x], o, g, k) == Egaux(l, o, g, k) + (if AuRang(x, o, g, k) then [x] else [])
  {
    hide AuRang;
    assert (l + [x])[..|l|] == l;
  }

  lemma PrecedeDistingue(m: Module, n: Module, o: int, g: string, k: Cle)
    requires Precede(m, n)
    ensures !(AuRang(m, o, g, k) && AuRang(n, o, g, k))
  {
    AvantTotal(m.genre, n.genre);
    AvantTotal(m.stateKey, n.stateKey);
  }

  lemma {:induction false} PlacerStable(x: Module, l: seq<Module>, o: int, g: string, k: Cle)
    ensures Egaux(Placer(x, l), o, g, k) == Egaux(l + [x], o, g, k)
  {
    hide Precede, AuRang, Egaux;
    if l == [] {
      assert l + [x] == [x];
    } else {
      var n := |l| - 1;
      assert l == l[..n] + [l[n]];
      if Precede(x, l[n]) {
        PlacerStable(x, l[..n], o, g, k);
        PrecedeDistingue(x, l[n], o, g, k);
        EgauxAjout(Placer(x, l[..n]), l[n], o, g, k);
        EgauxAjout(l[..n], x, o, g, k);
        EgauxAjout(l[..n], l[n], o, g, k);
        EgauxAjout(l, x, o, g, k);
      }
    }
  }

  lemma {:induction false} TrieeStable(l: seq<Module>, o: int, g: string, k: Cle)
    ensures Egaux(Triee(l), o, g, k) == Egaux(l, o, g, k)
  {
    hide Precede, AuRang, Egaux, Placer;
    if l != [] {
      var n := |l| - 1;
      assert l == l[..n] + [l[n]];
      TrieeStable(l[..n], o, g, k);
      PlacerStable(l[n], Triee(l[..n]), o, g, k);
      EgauxAjout(Triee(l[..n]), l[n], o, g, k);
      EgauxAjout(l[..n], l[n], o, g, k);
    }
  }

  /** By increasing order of application, then by type, then by state key. */
  ghost predicate EnOrdre(l: seq<Module>) {
    forall i, j | 0 <= i < j < |l| ::
      && l[i].applyOrder <= l[j].applyOrder
      && (l[i].applyOrder == l[j].applyOrder ==> !Avant(l[j].genre, l[i].genre))
      && (l[i].applyOrder == l[j].applyOrder && l[i].genre == l[j].genre ==> !Avant(l[j].stateKey, l[i].stateKey))
  }

  /** What the sort promises, said of the modules alone: they are all there, in order, and those that agree on the
      three fields keep the order they came in. */
  lemma TriFidele(l: seq<Module>)
    ensures multiset(Triee(l)) == multiset(l) && EnOrdre(Triee(l))
    ensures forall o, g, k :: Egaux(Triee(l), o, g, k) == Egaux(l, o, g, k)
  {
    TrieeCroissante(l);
    forall o, g, k { TrieeStable(l, o, g, k); }
    EnOrdreSansInversion(Triee(l));
  }

  lemma EnOrdreSansInversion(l: seq<Module>)
    requires SansInversion(l)
    ensures EnOrdre(l)
  {
    forall i, j | 0 <= i < j < |l|
      ensures l[i].applyOrder <= l[j].applyOrder
      ensures l[i].applyOrder == l[j].applyOrder ==> !Avant(l[j].genre, l[i].genre)
      ensures l[i].applyOrder == l[j].applyOrder && l[i].genre == l[j].genre ==> !Avant(l[j].stateKey, l[i].stateKey)
    {
      assert !Precede(l[j], l[i]);
      AvantTotal(l[i].genre, l[j].genre);
    }
  }

  /** In place, by stable insertion. */
  method SortModules(a: array<Module>)
    modifies a
    ensures a[..] == Triee(old(a[..])) && multiset(a[..]) == multiset(old(a[..]))
    ensures EnOrdre(a[..])
    ensures forall o, g, k :: Egaux(a[..], o, g, k) == Egaux(old(a[..]), o, g, k)
  {
    hide Precede, Placer, Egaux, EnOrdre;
    ghost var l := a[..];
    for i := 0 to a.Length
      invariant a[..i] == Triee(l[..i])
      invariant a[i..] == l[i..]
    {
      assert l[..i + 1][..i] == l[..i] && l[..i + 1][i] == l[i] == l[i..][0];
      Inserer(a, i);
      assert a[i + 1..] == l[i..][1..];
    }
    assert a[..a.Length] == a[..] && l[..a.Length] == l;
    TriFidele(l);
  }

  /** `x` put before line `j` of the sorted part, the rest behind. */
  ghost function Rangee(t: seq<Module>, x: Module, j: nat, fin: seq<Module>): seq<Module>
    requires j <= |t|
  {
    t[..j] + [x] + t[j..] + fin
  }

  method Inserer(a: array<Module>, i: nat)
    requires i < a.Length
    modifies a
    ensures a[..i + 1] == Placer(old(a[i]), old(a[..i]))
    ensures a[i + 1..] == old(a[i + 1..])
  {
    hide Precede, Placer, Rangee;
    ghost var t, fin := a[..i], a[i + 1..];
    var x := a[i];
    var j := i;
    RangeeDepart(a[..], i);
    while j > 0 && Precede(x, a[j - 1])
      invariant 0 <= j <= i
      invariant a[..] == Rangee(t, x, j, fin)
      invariant Placer(x, t) == Placer(x, t[..j]) + t[j..]
    {
      RangeeSuivante(t, x, j, fin);
      ghost var s := a[..];
      assert a[j - 1] == s[j - 1];
      Reculer(x, t, j);
      a[j] := a[j - 1];
      a[j - 1] := x;
      assert a[..] == s[j := s[j - 1]][j - 1 := x];
      j := j - 1;
    }
    RangeeFin(t, x, j, fin, a[..]);
    PlacerEnFin(x, t, j);
  }

  lemma RangeeDepart(s: seq<Module>, i: nat)
    requires i < |s|
    ensures Rangee(s[..i], s[i], i, s[i + 1..]) == s
    ensures s[..i][..i] == s[..i] && s[..i][i..] == [] && forall l: seq<Module> :: l + [] == l
  {
  }

  lemma RangeeSuivante(t: seq<Module>, x: Module, j: nat, fin: seq<Module>)
    requires 0 < j <= |t|
    ensures var s := Rangee(t, x, j, fin);
            |s| == |t| + 1 + |fin| && s[j - 1] == t[j - 1] && s[j := s[j - 1]][j - 1 := x] == Rangee(t, x, j - 1, fin)
  {
  }

  lemma RangeeFin(t: seq<Module>, x: Module, j: nat, fin: seq<Module>, s: seq<Module>)
    requires j <= |t| && s == Rangee(t, x, j, fin)
    ensures |s| == |t| + 1 + |fin| && (j > 0 ==> s[j - 1] == t[j - 1])
    ensures s[..|t| + 1] == t[..j] + [x] + t[j..] && s[|t| + 1..] == fin
  {
  }

  lemma PlacerEnFin(x: Module, t: seq<Module>, j: nat)
    requires j <= |t| && (j > 0 ==> !Precede(x, t[j - 1]))
    ensures Placer(x, t[..j]) == t[..j] + [x]
  {
    hide Precede;
    assert j > 0 ==> t[..j][j - 1] == t[j - 1];
  }

  lemma Reculer(x: Module, t: seq<Module>, j: nat)
    requires 0 < j <= |t| && Precede(x, t[j - 1])
    ensures Placer(x, t[..j]) + t[j..] == Placer(x, t[..j - 1]) + t[j - 1..]
  {
    assert t[..j][..j - 1] == t[..j - 1];
    assert t[j - 1..] == [t[j - 1]] + t[j..];
  }
}
