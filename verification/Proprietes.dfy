/** Who answers for a recorded entry (inventaire.go and verify.go carry the same algebra twice, once
    for `FileState` and once for `SystemCheck`; here it is written once, over the tracked object). */
module Proprietes {
  import opened Cles

  /** What is tracked, the module shown for it, and every owner when there are several. */
  datatype Suivi<T> = Suivi(objet: T, stateKey: Cle, owners: seq<Cle>)

  function ListeProprietaires<T>(f: Suivi<T>): seq<Cle> {
    if |f.owners| > 0 then f.owners
    else if f.stateKey == "" then []
    else [f.stateKey]
  }

  ghost function Proprietaires<T>(f: Suivi<T>): set<Cle> {
    Elements(ListeProprietaires(f)) - {""}
  }

  /** The entry for `f`'s object owned by exactly `s`, in canonical form. */
  ghost function Pose<T>(f: Suivi<T>, s: set<Cle>): Suivi<T>
    requires s != {}
  {
    Suivi(f.objet,
          if f.stateKey in s then f.stateKey else Minimum(s),
          if |s| == 1 then [] else Canon(s))
  }

  /** Some owner, none of them blank, sorted without repetition; `owners` is left empty for a single
      owner, and the module shown is one of the owners. */
  ghost predicate Canonique<T>(f: Suivi<T>) {
    && Proprietaires(f) != {}
    && "" !in ListeProprietaires(f)
    && f.stateKey in Proprietaires(f)
    && Croissante(ListeProprietaires(f))
    && (f.owners == [] <==> |Proprietaires(f)| == 1)
  }

  lemma SingletonDe<T>(s: set<T>, x: T)
    requires x in s && |s| == 1
    ensures s == {x}
  {
    var reste := s - {x};
    assert |reste| == 0;
    assert s == reste + {x};
  }

  lemma PoseCanonique<T>(f: Suivi<T>, s: set<Cle>)
    requires s != {} && "" !in s
    ensures Canonique(Pose(f, s)) && Proprietaires(Pose(f, s)) == s
  {
    var g := Pose(f, s);
    if |s| == 1 {
      SingletonDe(s, g.stateKey);
      assert ListeProprietaires(g) == [g.stateKey];
      assert Elements([g.stateKey]) == s;
    } else {
      ElementsVide(Canon(s));
      assert ListeProprietaires(g) == Canon(s);
    }
    assert Elements(ListeProprietaires(g)) == s;
    assert Proprietaires(g) == s;
    assert forall x :: x in ListeProprietaires(g) <==> x in Elements(ListeProprietaires(g));
  }

  /** A canonical entry is determined by its object, its shown module and its owners. */
  lemma CanoniqueEstPose<T>(f: Suivi<T>)
    requires Canonique(f)
    ensures f == Pose(f, Proprietaires(f))
    ensures Proprietaires(f) == Elements(ListeProprietaires(f))
  {
    var s := Proprietaires(f);
    assert forall x :: x in ListeProprietaires(f) <==> x in Elements(ListeProprietaires(f));
    if |s| != 1 { CanonUnique(f.owners, s); }
  }

  /** `avecProprietaires`: deduplicate, drop blanks, sort, keep the shown module if it is still there. */
  method AvecProprietaires<T>(f: Suivi<T>, keys: seq<Cle>) returns (g: Suivi<T>, reste: bool)
    ensures reste <==> Elements(keys) - {""} != {}
    ensures reste ==> g == Pose(f, Elements(keys) - {""})
    ensures !reste ==> g == f
  {
    var uniques: set<Cle> := {};
    var liste: seq<Cle> := [];
    for i := 0 to |keys|
      invariant uniques == Elements(keys[..i]) - {""}
      invariant forall x :: x in liste <==> x in uniques
      invariant forall j, k | 0 <= j < k < |liste| :: liste[j] != liste[k]
    {
      var key := keys[i];
      assert keys[..i + 1] == keys[..i] + [key];
      if key == "" || key in uniques { continue; }
      uniques := uniques + {key};
      liste := liste + [key];
    }
    assert keys[..|keys|] == keys;
    assert Elements(liste) == uniques;
    ElementsVide(liste);
    if |liste| == 0 { return f, false; }
    TrierCanon(liste);
    liste := Trier(liste);
    MinimumEnTete(uniques);
    var tete := if f.stateKey in uniques then f.stateKey else liste[0];
    if |liste| == 1 {
      return Suivi(f.objet, tete, []), true;
    }
    return Suivi(f.objet, tete, liste), true;
  }

  lemma MinimumEnTete(s: set<Cle>)
    requires s != {}
    ensures |Canon(s)| > 0 && Canon(s)[0] == Minimum(s)
  {
  }

  /** `sansProprietaire`: withdraw one module; false when no owner is left. */
  method SansProprietaire<T>(f: Suivi<T>, cle: Cle) returns (g: Suivi<T>, reste: bool)
    ensures reste <==> Proprietaires(f) - {cle} != {}
    ensures reste ==> g == Pose(f, Proprietaires(f) - {cle})
  {
    var restants: seq<Cle> := [];
    var l := ListeProprietaires(f);
    for i := 0 to |l|
      invariant forall x :: x in restants <==> x in l[..i] && x != cle
    {
      assert l[..i + 1] == l[..i] + [l[i]];
      if l[i] != cle { restants := restants + [l[i]]; }
    }
    assert l[..|l|] == l;
    assert Elements(restants) - {""} == Proprietaires(f) - {cle};
    g, reste := AvecProprietaires(f, restants);
  }
}
