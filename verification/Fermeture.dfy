/** What `BuildScopeState` leaves in its maps of tracked entries, in closed form: who owns an entry and
    what it holds, stated without the order in which the engine visits anything (apply.go:419-525). */
module Fermeture {
  import opened Cles
  import opened Proprietes

  /** What one outcome brings to a map of tracked entries: `remplace` when the module was applied, so
      that what it declares now replaces what it declared before. */
  datatype Apport<T> = Apport(cle: Cle, remplace: bool, pose: map<string, Suivi<T>>)

  ghost predicate ApportsValides<T>(c: seq<Apport<T>>) {
    && (forall i | 0 <= i < |c| :: c[i].cle != "" && forall p | p in c[i].pose ::
          c[i].pose[p].stateKey == c[i].cle && c[i].pose[p].owners == [])
    && (forall i, j | 0 <= i < j < |c| :: c[i].cle != c[j].cle)
  }

  ghost function Remplaces<T>(c: seq<Apport<T>>): set<Cle> {
    set i | 0 <= i < |c| && c[i].remplace :: c[i].cle
  }

  ghost function Apporteurs<T>(c: seq<Apport<T>>, p: string): set<Cle> {
    set i | 0 <= i < |c| && p in c[i].pose :: c[i].cle
  }

  ghost function Apportes<T>(c: seq<Apport<T>>): set<string> {
    set i, p | 0 <= i < |c| && p in c[i].pose :: p
  }

  /** Index of the last module that brought `p`, -1 for none. */
  ghost function DernierApport<T>(c: seq<Apport<T>>, p: string): (i: int)
    ensures -1 <= i < |c|
    ensures i >= 0 ==> p in c[i].pose
    ensures forall j | i < j < |c| :: p !in c[j].pose
  {
    if c == [] then -1
    else if p in c[|c| - 1].pose then |c| - 1
    else DernierApport(c[..|c| - 1], p)
  }

  lemma DernierApportSsi<T>(c: seq<Apport<T>>, p: string)
    ensures DernierApport(c, p) >= 0 <==> Apporteurs(c, p) != {}
    ensures DernierApport(c, p) >= 0 ==> c[DernierApport(c, p)].cle in Apporteurs(c, p)
  {
  }

  /** Previous owners still in the policy and not re-applied, plus the modules that brought `p`. */
  ghost function ProprietairesFinals<T>(avant: map<string, Suivi<T>>, garde: set<Cle>, c: seq<Apport<T>>,
      p: string): set<Cle> {
    (if p in avant then (Proprietaires(avant[p]) * garde) - Remplaces(c) else {}) + Apporteurs(c, p)
  }

  ghost function Base<T>(avant: map<string, Suivi<T>>, c: seq<Apport<T>>, p: string): Suivi<T>
    requires p in avant || Apporteurs(c, p) != {}
  {
    var i := DernierApport(c, p);
    if i >= 0 then c[i].pose[p] else
      assert Apporteurs(c, p) == {};
      avant[p]
  }

  /** The object last brought, or else the previous one, under its final owners. */
  ghost function EntreeFinale<T>(avant: map<string, Suivi<T>>, garde: set<Cle>, c: seq<Apport<T>>, p: string): Suivi<T>
    requires ProprietairesFinals(avant, garde, c, p) != {}
  {
    Pose(Base(avant, c, p), ProprietairesFinals(avant, garde, c, p))
  }

  lemma ObjetFinal<T>(avant: map<string, Suivi<T>>, garde: set<Cle>, c: seq<Apport<T>>, p: string)
    requires Apporteurs(c, p) != {} && ProprietairesFinals(avant, garde, c, p) != {}
    ensures DernierApport(c, p) >= 0
    ensures EntreeFinale(avant, garde, c, p).objet == c[DernierApport(c, p)].pose[p].objet
  {
    hide ProprietairesFinals;
    DernierApportSsi(c, p);
  }

  ghost function FormeClose<T>(avant: map<string, Suivi<T>>, garde: set<Cle>, c: seq<Apport<T>>)
    : map<string, Suivi<T>>
  {
    Tableau(set p | p in avant.Keys + Apportes(c) && ProprietairesFinals(avant, garde, c, p) != {},
            (p: string) requires ProprietairesFinals(avant, garde, c, p) != {} => EntreeFinale(avant, garde, c, p))
  }

  // --- one outcome at a time, as the engine does ------------------------------

  ghost function SansCle<T>(m: map<string, Suivi<T>>, cle: Cle): map<string, Suivi<T>>
  {
    Tableau(set p | p in m && Proprietaires(m[p]) - {cle} != {},
            (p: string) requires p in m && Proprietaires(m[p]) - {cle} != {} =>
              Pose(m[p], Proprietaires(m[p]) - {cle}))
  }

  ghost function AvecPose<T>(m: map<string, Suivi<T>>, d: map<string, Suivi<T>>, cle: Cle): map<string, Suivi<T>>
  {
    Tableau(m.Keys + d.Keys,
            (p: string) requires p in m || p in d =>
              if p !in d then m[p] else if p in m then Pose(d[p], Proprietaires(m[p]) + {cle}) else d[p])
  }

  lemma PosePose<T>(f: Suivi<T>, s: set<Cle>, t: set<Cle>)
    requires t != {} && t <= s
    ensures Pose(Pose(f, s), t) == Pose(f, t)
  {
    if f.stateKey !in s && Minimum(s) in t { AvantTotal(Minimum(s), Minimum(t)); }
  }

  lemma ProprietairesVus<T>(avant: map<string, Suivi<T>>, garde: set<Cle>, c: seq<Apport<T>>, p: string)
    requires ApportsValides(c) && "" !in garde
    ensures p in FormeClose(avant, garde, c) <==> ProprietairesFinals(avant, garde, c, p) != {}
    ensures p in FormeClose(avant, garde, c) ==>
              && FormeClose(avant, garde, c)[p] == EntreeFinale(avant, garde, c, p)
              && Canonique(EntreeFinale(avant, garde, c, p))
              && Proprietaires(EntreeFinale(avant, garde, c, p)) == ProprietairesFinals(avant, garde, c, p)
  {
    if ProprietairesFinals(avant, garde, c, p) != {} {
      PoseCanonique(Base(avant, c, p), ProprietairesFinals(avant, garde, c, p));
      if DernierApport(c, p) < 0 { assert Apporteurs(c, p) == {}; } else { assert p in Apportes(c); }
    }
  }

  lemma ProprietairesEtape<T>(avant: map<string, Suivi<T>>, garde: set<Cle>, c: seq<Apport<T>>, d: Apport<T>, p: string)
    requires ApportsValides(c + [d])
    ensures ApportsValides(c) && d.cle != ""
    ensures ProprietairesFinals(avant, garde, c + [d], p) ==
            (if d.remplace then ProprietairesFinals(avant, garde, c, p) - {d.cle} else ProprietairesFinals(avant,
                garde, c, p))
            + (if p in d.pose then {d.cle} else {})
    ensures p in d.pose ==> Base(avant, c + [d], p) == d.pose[p]
    ensures p !in d.pose && ProprietairesFinals(avant, garde, c + [d], p) != {} ==>
              Base(avant, c + [d], p) == Base(avant, c, p)
  {
    hide Proprietaires;
    var e := c + [d];
    assert e[..|e| - 1] == c && e[|c|] == d;
    ApportsPrefixe(c, d);
    CumulEtape(c, d, p);
  }

  lemma ApportsPrefixe<T>(c: seq<Apport<T>>, d: Apport<T>)
    requires ApportsValides(c + [d])
    ensures ApportsValides(c) && d.cle != "" && forall i | 0 <= i < |c| :: c[i].cle != d.cle
  {
    var e := c + [d];
    assert e[|c|] == d && forall i | 0 <= i < |c| :: c[i] == e[i];
  }

  lemma CumulEtape<T>(c: seq<Apport<T>>, d: Apport<T>, p: string)
    requires forall i | 0 <= i < |c| :: c[i].cle != d.cle
    ensures Remplaces(c + [d]) == Remplaces(c) + (if d.remplace then {d.cle} else {})
    ensures Apporteurs(c + [d], p) == Apporteurs(c, p) + (if p in d.pose then {d.cle} else {})
    ensures d.cle !in Apporteurs(c, p)
  {
    var e := c + [d];
    assert e[|c|] == d;
    assert Remplaces(e) == Remplaces(c) + (if d.remplace then {d.cle} else {}) by {
      assert forall k | k in Remplaces(c) :: exists i :: 0 <= i < |c| && c[i].remplace && c[i].cle == k && e[i] == c[i];
    }
    assert Apporteurs(e, p) == Apporteurs(c, p) + (if p in d.pose then {d.cle} else {}) by {
      assert forall k | k in Apporteurs(c, p) :: exists i ::
          0 <= i < |c| && p in c[i].pose && c[i].cle == k && e[i] == c[i];
    }
  }

  lemma PoseSeule<T>(f: Suivi<T>)
    requires f.owners == []
    ensures Pose(f, {f.stateKey}) == f
  {
  }

  /** Withdrawing the module of the next outcome, seen through the closed form. */
  lemma SansCleEn<T>(avant: map<string, Suivi<T>>, garde: set<Cle>, c: seq<Apport<T>>, cle: Cle, p: string)
    requires ApportsValides(c) && "" !in garde
    ensures var o := ProprietairesFinals(avant, garde, c, p) - {cle};
            var n := SansCle(FormeClose(avant, garde, c), cle);
            && (p in n <==> o != {})
            && (p in n ==> n[p] == Pose(Base(avant, c, p), o) && Proprietaires(n[p]) == o)
  {
    var o := ProprietairesFinals(avant, garde, c, p);
    ProprietairesVus(avant, garde, c, p);
    if o - {cle} != {} {
      PoseCanonique(EntreeFinale(avant, garde, c, p), o - {cle});
      PosePose(Base(avant, c, p), o, o - {cle});
    }
  }

  /** The same, whether or not the outcome withdraws what its module declared before. */
  lemma RetraitEn<T>(avant: map<string, Suivi<T>>, garde: set<Cle>, c: seq<Apport<T>>, d: Apport<T>,
                     n: map<string, Suivi<T>>, p: string)
    requires ApportsValides(c) && "" !in garde
    requires n == if d.remplace then SansCle(FormeClose(avant, garde, c), d.cle) else FormeClose(avant, garde, c)
    ensures var o := Restants(avant, garde, c, d, p);
            && (p in n <==> o != {})
            && (p in n ==> n[p] == Pose(Base(avant, c, p), o) && Proprietaires(n[p]) == o)
  {
    if d.remplace { SansCleEn(avant, garde, c, d.cle, p); } else { ProprietairesVus(avant, garde, c, p); }
  }

  ghost function Restants<T>(avant: map<string, Suivi<T>>, garde: set<Cle>, c: seq<Apport<T>>, d: Apport<T>,
      p: string): set<Cle> {
    if d.remplace then ProprietairesFinals(avant, garde, c, p) - {d.cle} else ProprietairesFinals(avant, garde, c, p)
  }

  /** What the closed form of one more outcome holds at a path this outcome brings. */
  lemma SuivantPose<T>(avant: map<string, Suivi<T>>, garde: set<Cle>, c: seq<Apport<T>>, d: Apport<T>, p: string,
      f: map<string, Suivi<T>>)
    requires ApportsValides(c + [d]) && "" !in garde && p in d.pose
    requires f == FormeClose(avant, garde, c + [d])
    ensures p in f && f[p] == Pose(d.pose[p], Restants(avant, garde, c, d, p) + {d.cle})
  {
    ProprietairesEtape(avant, garde, c, d, p);
    assert ProprietairesFinals(avant, garde, c + [d], p) == Restants(avant, garde, c, d, p) + {d.cle};
    ProprietairesVus(avant, garde, c + [d], p);
  }

  /** What it holds at a path this outcome does not bring. */
  lemma SuivantIntact<T>(avant: map<string, Suivi<T>>, garde: set<Cle>, c: seq<Apport<T>>, d: Apport<T>, p: string,
      f: map<string, Suivi<T>>)
    requires ApportsValides(c + [d]) && "" !in garde && p !in d.pose
    requires f == FormeClose(avant, garde, c + [d])
    ensures p in f <==> Restants(avant, garde, c, d, p) != {}
    ensures p in f ==> f[p] == Pose(Base(avant, c, p), Restants(avant, garde, c, d, p))
  {
    hide FormeClose;
    ProprietairesEtape(avant, garde, c, d, p);
    assert ProprietairesFinals(avant, garde, c + [d], p) == Restants(avant, garde, c, d, p);
    ProprietairesVus(avant, garde, c + [d], p);
  }

  lemma EtapePose<T>(avant: map<string, Suivi<T>>, garde: set<Cle>, c: seq<Apport<T>>, d: Apport<T>,
                     n: map<string, Suivi<T>>, p: string, f: map<string, Suivi<T>>)
    requires ApportsValides(c + [d]) && ApportsValides(c) && "" !in garde && p in d.pose
    requires n == if d.remplace then SansCle(FormeClose(avant, garde, c), d.cle) else FormeClose(avant, garde, c)
    requires f == FormeClose(avant, garde, c + [d])
    ensures p in f && f[p] == if p in n then Pose(d.pose[p], Proprietaires(n[p]) + {d.cle}) else d.pose[p]
  {
    RetraitEn(avant, garde, c, d, n, p);
    SuivantPose(avant, garde, c, d, p, f);
    assert (c + [d])[|c|] == d;
    PoseSeule(d.pose[p]);
  }

  lemma EtapeIntacte<T>(avant: map<string, Suivi<T>>, garde: set<Cle>, c: seq<Apport<T>>, d: Apport<T>,
                        n: map<string, Suivi<T>>, p: string, f: map<string, Suivi<T>>)
    requires ApportsValides(c + [d]) && ApportsValides(c) && "" !in garde && p !in d.pose
    requires n == if d.remplace then SansCle(FormeClose(avant, garde, c), d.cle) else FormeClose(avant, garde, c)
    requires f == FormeClose(avant, garde, c + [d])
    ensures (p in f <==> p in n) && (p in f ==> f[p] == n[p])
  {
    RetraitEn(avant, garde, c, d, n, p);
    SuivantIntact(avant, garde, c, d, p, f);
  }

  /** Handling one more outcome the way the engine does gives the closed form of one more outcome. */
  lemma EtapeFermee<T>(avant: map<string, Suivi<T>>, garde: set<Cle>, c: seq<Apport<T>>, d: Apport<T>, n: map<string,
      Suivi<T>>)
    requires ApportsValides(c + [d]) && ApportsValides(c) && "" !in garde
    requires n == if d.remplace then SansCle(FormeClose(avant, garde, c), d.cle) else FormeClose(avant, garde, c)
    ensures FormeClose(avant, garde, c + [d]) == AvecPose(n, d.pose, d.cle)
  {
    var f := FormeClose(avant, garde, c + [d]);
    forall p
      ensures p in f <==> p in n || p in d.pose
      ensures p in f ==> f[p] == if p !in d.pose then n[p] else if p in n then Pose(d.pose[p],
          Proprietaires(n[p]) + {d.cle}) else d.pose[p]
    {
      if p in d.pose { EtapePose(avant, garde, c, d, n, p, f); } else { EtapeIntacte(avant, garde, c, d, n, p, f); }
    }
    AvecPoseUnique(f, n, d.pose, d.cle);
  }

  lemma AvecPoseUnique<T>(f: map<string, Suivi<T>>, n: map<string, Suivi<T>>, d: map<string, Suivi<T>>, cle: Cle)
    requires forall p :: p in f <==> p in n || p in d
    requires forall p | p in f :: f[p] == if p !in d then n[p] else if p in n then Pose(d[p],
        Proprietaires(n[p]) + {cle}) else d[p]
    ensures f == AvecPose(n, d, cle)
  {
  }

  /** Who owns what does not depend on the order of the outcomes. */
  lemma ProprietairesSansOrdre<T>(avant: map<string, Suivi<T>>, garde: set<Cle>, c: seq<Apport<T>>, d: seq<Apport<T>>,
      p: string)
    requires multiset(c) == multiset(d)
    ensures ProprietairesFinals(avant, garde, c, p) == ProprietairesFinals(avant, garde, d, p)
  {
    MemesApports(c, d, p);
    MemesApports(d, c, p);
  }

  lemma MemesApports<T>(c: seq<Apport<T>>, d: seq<Apport<T>>, p: string)
    requires multiset(c) == multiset(d)
    ensures Remplaces(c) <= Remplaces(d) && Apporteurs(c, p) <= Apporteurs(d, p)
  {
    forall i | 0 <= i < |c| ensures exists j :: 0 <= j < |d| && d[j] == c[i] {
      assert c[i] in multiset(c);
      assert c[i] in multiset(d);
      assert c[i] in d;
    }
    forall k | k in Remplaces(c) ensures k in Remplaces(d) {
      var i :| 0 <= i < |c| && c[i].remplace && c[i].cle == k;
      var j :| 0 <= j < |d| && d[j] == c[i];
    }
    forall k | k in Apporteurs(c, p) ensures k in Apporteurs(d, p) {
      var i :| 0 <= i < |c| && p in c[i].pose && c[i].cle == k;
      var j :| 0 <= j < |d| && d[j] == c[i];
    }
  }

  /** Every entry left is canonical, owned by modules of the policy only: exactly the previous owners still
      in the policy and not re-applied, plus those that brought it. */
  lemma EntreesCanoniques<T>(avant: map<string, Suivi<T>>, garde: set<Cle>, c: seq<Apport<T>>, p: string)
    requires ApportsValides(c) && "" !in garde && (forall i | 0 <= i < |c| :: c[i].cle in garde)
    ensures p in FormeClose(avant, garde, c) <==> ProprietairesFinals(avant, garde, c, p) != {}
    ensures p in FormeClose(avant, garde, c) ==>
              && Canonique(FormeClose(avant, garde, c)[p])
              && Proprietaires(FormeClose(avant, garde, c)[p]) == ProprietairesFinals(avant, garde, c, p)
    ensures ProprietairesFinals(avant, garde, c, p) <= garde
  {
    ProprietairesVus(avant, garde, c, p);
  }

  /** It holds what the last of those brought, under that module's key, or else what it held. */
  lemma ContenuDuDernier<T>(avant: map<string, Suivi<T>>, garde: set<Cle>, c: seq<Apport<T>>, p: string, i: nat)
    requires ApportsValides(c) && "" !in garde && p in FormeClose(avant, garde, c)
    ensures Apporteurs(c, p) == {} ==> p in avant && FormeClose(avant, garde, c)[p].objet == avant[p].objet
    ensures i < |c| && p in c[i].pose && (forall j | i < j < |c| :: p !in c[j].pose) ==>
              FormeClose(avant, garde, c)[p].objet == c[i].pose[p].objet &&
                  FormeClose(avant, garde, c)[p].stateKey == c[i].cle
  {
    ProprietairesVus(avant, garde, c, p);
    DernierApportSsi(c, p);
    if i < |c| && p in c[i].pose && (forall j | i < j < |c| :: p !in c[j].pose) {
      assert c[i].cle in Apporteurs(c, p);
      assert DernierApport(c, p) == i;
    }
  }
}
