/** One pass of reconciliation: plan, commit group by group, report (`Planifier`, `Reconcilier`). */
module Reconciliation {
  import opened Options
  import opened ConfTextes
  import opened Secours
  import opened PileDebian
  import opened SSHD
  import opened NSS
  import opened Regles
  import opened ConfGroupe
  import opened Passages

  /** The groups in the order of their names. */
  const GROUPES := [Nsswitch, PilesPAM, SshdConfig, EcranDeConnexion]

  // --- the plan ---------------------------------------------------------------------------

  method ProduireFichier(p: Producteur, actuel: string) returns (r: Resultat<string>)
    ensures r == Produire(p, actuel)
  {
    match p
    case Gabarit(g) => r := Ok(Joindre(g));
    case Pile(auth, session) => r := BrancherPileDebian(actuel, auth, session);
    case Sshd =>
      var s := ReecrireSSHD(actuel);
      r := Ok(s);
    case Nss => r := BrancherNSS(actuel);
  }

  /** The finding of one rule, and the content to write if any. */
  method Examiner(r: Regle, lu: Option<string>) returns (a: Action, contenu: string)
    ensures a == ActionPrevue(r, lu)
    ensures a == AEcrire ==> Candidature(r, lu) == Some(contenu)
  {
    hide Produire, PorteOuverte, LireVersion, Lignes;
    contenu := "";
    if lu.None? && !r.creer {
      a := if r.requis then Refusee else Absente;
      return;
    }
    if lu.Some? && LireVersion(lu.value) == r.version { return AJour, contenu; }
    if lu.Some? && LireVersion(lu.value) > r.version { return EnAvance, contenu; }
    var p := ProduireFichier(r.produire, if lu.Some? then lu.value else "");
    if !p.Ok? { return Refusee, contenu; }
    if r.porte {
      var v := VerifierPorteDeSecours(p.value);
      if v != Ouverte { return Refusee, contenu; }
    }
    return AEcrire, p.value;
  }

  /** The actions planned for the rules, read on the files of before. */
  ghost function Prevues(regles: seq<Regle>, f: Fichiers): (a: seq<Action>)
    ensures |a| == |regles| && forall i | 0 <= i < |regles| :: a[i] == ActionPrevue(regles[i], Lu(f, regles[i]))
  {
    seq(|regles|, i requires 0 <= i < |regles| => ActionPrevue(regles[i], Lu(f, regles[i])))
  }

  ghost predicate EnErreur(regles: seq<Regle>, f: Fichiers, n: nat, g: Groupe)
    requires n <= |regles|
  {
    exists i | 0 <= i < n :: regles[i].groupe == g && ActionPrevue(regles[i], Lu(f, regles[i])) == Refusee
  }

  /** A candidate as planned: of a rule to write, holding what that rule gives, nothing done yet. */
  ghost predicate Planifie(c: Candidat, regles: seq<Regle>, n: nat, g: Groupe, f: Fichiers)
    requires n <= |regles|
  {
    && c.tmp.None? && c.bak.None? && c.regle.groupe == g
    && (exists i | 0 <= i < n :: regles[i] == c.regle)
    && ActionPrevue(c.regle, Lu(f, c.regle)) == AEcrire && Candidature(c.regle, Lu(f, c.regle)) == Some(c.contenu)
    && (c.existe <==> Lu(f, c.regle).Some?)
  }

  /** The candidates of a group after `n` rules: all those to write, and no other. */
  ghost predicate PlanDuGroupe(cs: seq<Candidat>, regles: seq<Regle>, n: nat, g: Groupe, f: Fichiers)
    requires n <= |regles|
  {
    && Distincts(cs)
    && (forall k | 0 <= k < |cs| :: Planifie(cs[k], regles, n, g, f))
    && (forall i | 0 <= i < n && regles[i].groupe == g && ActionPrevue(regles[i], Lu(f, regles[i])) == AEcrire ::
          exists k | 0 <= k < |cs| :: cs[k].regle == regles[i])
  }

  /** A planned candidate always brings a new content. */
  lemma CandidatNouveau(c: Candidat, regles: seq<Regle>, n: nat, g: Groupe, f: Fichiers)
    requires n <= |regles| && DesRegles(regles) && Planifie(c, regles, n, g, f)
    ensures Lire(f, c.Vers()) != Some(c.contenu)
  {
    hide Candidature, LireVersion, Livre;
    CandidatVersion(c.regle, Lu(f, c.regle));
  }

  /** So, for a group as planned, the files that were there before a refusal are all back exactly if no restoring
      step failed or met something gone. */
  lemma RemisPlanifie(cs: seq<Candidat>, regles: seq<Regle>, g: Groupe, avant: Fichiers, f: Fichiers,
                      restees: set<Chemin>)
    requires DesRegles(regles) && PlanDuGroupe(cs, regles, |regles|, g, avant)
    requires Laisses(cs, avant, f, restees) && restees <= Cibles(cs, |cs|)
    ensures (forall i | 0 <= i < |cs| :: Lire(f, cs[i].Vers()) == Lire(avant, cs[i].Vers())) <==> restees == {}
  {
    hide DesRegles, Laisses;
    RemisVrai(cs, avant, f, restees);
    forall i | 0 <= i < |cs| ensures Lire(avant, cs[i].Vers()) != Some(cs[i].contenu) {
      CandidatNouveau(cs[i], regles, |regles|, g, avant);
    }
    if c :| c in restees {
      var i :| 0 <= i < |cs| && cs[i].Vers() == c;
    }
  }

  type Plan = map<Groupe, seq<Candidat>>

  function Du(p: Plan, g: Groupe): seq<Candidat> { if g in p then p[g] else [] }

  /** `Planifier`: reads everything, writes nothing. */
  method Planifier(racine: Racine, regles: seq<Regle>) returns (actions: seq<Action>, plan: Plan)
    requires forall i, j | 0 <= i < j < |regles| :: regles[i].rel != regles[j].rel
    ensures actions == Prevues(regles, racine.fichiers)
    ensures forall g | g in plan :: !EnErreur(regles, racine.fichiers, |regles|, g)
    ensures forall g :: !EnErreur(regles, racine.fichiers, |regles|, g) ==>
        PlanDuGroupe(Du(plan, g), regles, |regles|, g, racine.fichiers)
  {
    hide ActionPrevue, Candidature;
    ghost var f := racine.fichiers;
    var parGroupe: Plan := map[];
    var enErreur: set<Groupe> := {};
    actions := [];
    for i := 0 to |regles|
      invariant actions == Prevues(regles, f)[..i]
      invariant forall g :: g in enErreur <==> EnErreur(regles, f, i, g)
      invariant forall g :: PlanDuGroupe(Du(parGroupe, g), regles, i, g, f)
    {
      var r := regles[i];
      var lu := Lire(racine.fichiers, Cible(r.rel));
      var a, contenu := Examiner(r, lu);
      ghost var av := parGroupe;
      if a == Refusee { enErreur := enErreur + {r.groupe}; }
      if a == AEcrire {
        parGroupe := parGroupe[r.groupe := Du(parGroupe, r.groupe) + [Candidat(r, contenu, lu.Some?, None, None)]];
      }
      forall g ensures PlanDuGroupe(Du(parGroupe, g), regles, i + 1, g, f) {
        PlanSuivant(Du(av, g), regles, i, g, f, contenu);
      }
      actions := actions + [a];
    }
    plan := parGroupe - enErreur;
    assert Prevues(regles, f)[..|regles|] == Prevues(regles, f);
    forall g | !EnErreur(regles, f, |regles|, g) ensures PlanDuGroupe(Du(plan, g), regles, |regles|, g, f) {
      assert g !in enErreur && Du(plan, g) == Du(parGroupe, g);
    }
  }

  lemma PlanSuivant(cs: seq<Candidat>, regles: seq<Regle>, n: nat, g: Groupe, f: Fichiers, contenu: string)
    requires n < |regles| && PlanDuGroupe(cs, regles, n, g, f)
    requires forall i, j | 0 <= i < j < |regles| :: regles[i].rel != regles[j].rel
    requires var r := regles[n]; ActionPrevue(r, Lu(f, r)) == AEcrire ==> Candidature(r, Lu(f, r)) == Some(contenu)
    ensures var r := regles[n];
            PlanDuGroupe(if r.groupe == g && ActionPrevue(r, Lu(f, r)) == AEcrire
                         then cs + [Candidat(r, contenu, Lu(f, r).Some?, None, None)] else cs, regles, n + 1, g, f)
  {
    hide ActionPrevue, Candidature;
    var r := regles[n];
    forall k | 0 <= k < |cs| ensures Planifie(cs[k], regles, n + 1, g, f) && cs[k].regle.rel != r.rel {
      assert Planifie(cs[k], regles, n, g, f);
    }
    var c := Candidat(r, contenu, Lu(f, r).Some?, None, None);
    var cs' := if r.groupe == g && ActionPrevue(r, Lu(f, r)) == AEcrire then cs + [c] else cs;
    assert cs <= cs';
    forall i | 0 <= i < n + 1 && regles[i].groupe == g && ActionPrevue(regles[i], Lu(f, regles[i])) == AEcrire
      ensures exists k | 0 <= k < |cs'| :: cs'[k].regle == regles[i]
    {
      if i == n {
        assert cs'[|cs|].regle == regles[i];
      } else {
        var k :| 0 <= k < |cs| && cs[k].regle == regles[i];
        assert cs'[k].regle == regles[i];
      }
    }
  }

  // --- the pass -----------------------------------------------------------------------

  /** `marquer` */
  method Marquer(actions: seq<Action>, regles: seq<Regle>, g: Groupe, vers: Action) returns (r: seq<Action>)
    requires |actions| == |regles|
    ensures |r| == |regles|
    ensures forall i | 0 <= i < |regles| ::
              r[i] == if regles[i].groupe == g && actions[i] == AEcrire then vers else actions[i]
  {
    r := actions;
    for i := 0 to |regles|
      invariant |r| == |regles|
      invariant forall k | 0 <= k < i ::
                  r[k] == if regles[k].groupe == g && actions[k] == AEcrire then vers else actions[k]
      invariant forall k | i <= k < |regles| :: r[k] == actions[k]
    {
      if regles[i].groupe == g && r[i] == AEcrire { r := r[i := vers]; }
    }
  }

  /** Groups committed so far, and how each ended. */
  type Issues = map<Groupe, Issue>

  function Marquee(a: Action, g: Groupe, issues: Issues): Action {
    if a == AEcrire && g in issues then (if issues[g] == Ecrit then Ecrite else Refusee) else a
  }

  ghost predicate EnMarche(regles: seq<Regle>, actions: seq<Action>, issues: Issues, f: Fichiers, f': Fichiers) {
    && |actions| == |regles|
    && (forall i | 0 <= i < |regles| :: actions[i] == Marquee(Prevues(regles, f)[i], regles[i].groupe, issues))
    && (forall i | 0 <= i < |regles| :: Devenu(regles[i], actions[i], Lu(f, regles[i]), Lu(f', regles[i])))
    && (forall rel: string | (forall i | 0 <= i < |regles| :: regles[i].rel != rel) ::
        Lire(f', Cible(rel)) == Lire(f, Cible(rel)))
  }

  /** One more group committed. */
  lemma GroupeEcrit(regles: seq<Regle>, actions: seq<Action>, actions': seq<Action>, issues: Issues, g: Groupe,
      issue: Issue,
                    cs: seq<Candidat>, f: Fichiers, f1: Fichiers, f2: Fichiers)
    requires EnMarche(regles, actions, issues, f, f1) && g !in issues && PlanDuGroupe(cs, regles, |regles|, g, f)
    requires forall i, j | 0 <= i < j < |regles| :: regles[i].rel != regles[j].rel
    requires |actions'| == |regles|
    requires forall i | 0 <= i < |regles| ::
               actions'[i] == if regles[i].groupe == g && actions[i] == AEcrire
                              then (if issue == Ecrit then Ecrite else Refusee)
                              else actions[i]
    requires issue == Ecrit ==> forall k | 0 <= k < |cs| :: Lire(f2, cs[k].Vers()) == Some(cs[k].contenu)
    requires forall k | 0 <= k < |cs| :: Lire(f2, cs[k].Vers()) in {Lire(f1, cs[k].Vers()), Some(cs[k].contenu)}
    requires forall rel: string | !DuGroupe(rel, cs) :: Lire(f2, Cible(rel)) == Lire(f1, Cible(rel))
    ensures EnMarche(regles, actions', issues[g := issue], f, f2)
  {
    hide ActionPrevue, Candidature;
    forall i | 0 <= i < |regles|
      ensures actions'[i] == Marquee(Prevues(regles, f)[i], regles[i].groupe, issues[g := issue])
      ensures Devenu(regles[i], actions'[i], Lu(f, regles[i]), Lu(f2, regles[i]))
    {
      UneRegle(regles, i, actions[i], actions'[i], issues, g, issue, cs, f, f1, f2);
    }
    forall rel: string | (forall i | 0 <= i < |regles| ::
        regles[i].rel != rel) ensures Lire(f2, Cible(rel)) == Lire(f, Cible(rel)) {
      HorsPlan(regles, cs, g, f, rel);
    }
  }

  lemma HorsPlan(regles: seq<Regle>, cs: seq<Candidat>, g: Groupe, f: Fichiers, rel: string)
    requires PlanDuGroupe(cs, regles, |regles|, g, f) && forall i | 0 <= i < |regles| :: regles[i].rel != rel
    ensures !DuGroupe(rel, cs)
  {
    hide ActionPrevue, Candidature;
    forall k | 0 <= k < |cs| ensures cs[k].regle.rel != rel { assert Planifie(cs[k], regles, |regles|, g, f); }
  }

  lemma UneRegle(regles: seq<Regle>, i: nat, a: Action, a': Action, issues: Issues, g: Groupe, issue: Issue,
                 cs: seq<Candidat>, f: Fichiers, f1: Fichiers, f2: Fichiers)
    requires i < |regles| && g !in issues && PlanDuGroupe(cs, regles, |regles|, g, f)
    requires forall i, j | 0 <= i < j < |regles| :: regles[i].rel != regles[j].rel
    requires a == Marquee(Prevues(regles, f)[i], regles[i].groupe, issues)
    requires Devenu(regles[i], a, Lu(f, regles[i]), Lu(f1, regles[i]))
    requires a' == if regles[i].groupe == g && a == AEcrire then (if issue == Ecrit then Ecrite else Refusee) else a
    requires issue == Ecrit ==> forall k | 0 <= k < |cs| :: Lire(f2, cs[k].Vers()) == Some(cs[k].contenu)
    requires forall k | 0 <= k < |cs| :: Lire(f2, cs[k].Vers()) in {Lire(f1, cs[k].Vers()), Some(cs[k].contenu)}
    requires forall rel: string | !DuGroupe(rel, cs) :: Lire(f2, Cible(rel)) == Lire(f1, Cible(rel))
    ensures a' == Marquee(Prevues(regles, f)[i], regles[i].groupe, issues[g := issue])
    ensures Devenu(regles[i], a', Lu(f, regles[i]), Lu(f2, regles[i]))
  {
    hide ActionPrevue, Candidature, PlanDuGroupe;
    var r := regles[i];
    if r.groupe == g && a == AEcrire {
      var k := CandidatDe(regles, i, g, cs, f);
    } else {
      PasDuPlan(regles, i, a, issues, g, cs, f);
    }
  }

  lemma CandidatDe(regles: seq<Regle>, i: nat, g: Groupe, cs: seq<Candidat>, f: Fichiers) returns (k: nat)
    requires i < |regles| && PlanDuGroupe(cs, regles, |regles|, g, f) && regles[i].groupe == g
    requires ActionPrevue(regles[i], Lu(f, regles[i])) == AEcrire
    ensures k < |cs| && cs[k].regle == regles[i]
    ensures Candidature(regles[i], Lu(f, regles[i])) == Some(cs[k].contenu)
  {
    hide ActionPrevue, Candidature;
    k :| 0 <= k < |cs| && cs[k].regle == regles[i];
    assert Planifie(cs[k], regles, |regles|, g, f);
  }

  lemma PasDuPlan(regles: seq<Regle>, i: nat, a: Action, issues: Issues, g: Groupe, cs: seq<Candidat>, f: Fichiers)
    requires i < |regles| && g !in issues && PlanDuGroupe(cs, regles, |regles|, g, f)
    requires forall i, j | 0 <= i < j < |regles| :: regles[i].rel != regles[j].rel
    requires a == Marquee(Prevues(regles, f)[i], regles[i].groupe, issues) && !(regles[i].groupe == g && a == AEcrire)
    ensures !DuGroupe(regles[i].rel, cs)
  {
    hide ActionPrevue, Candidature;
    forall k | 0 <= k < |cs| ensures cs[k].regle.rel != regles[i].rel {
      assert Planifie(cs[k], regles, |regles|, g, f);
    }
  }

  /** Every group of the plan committed: the pass is whole. */
  lemma PassageEntier(regles: seq<Regle>, actions: seq<Action>, issues: Issues, plan: Plan, f: Fichiers, f': Fichiers)
    requires EnMarche(regles, actions, issues, f, f') && issues.Keys == plan.Keys
    requires forall g | g in plan :: !EnErreur(regles, f, |regles|, g)
    requires forall g :: !EnErreur(regles, f, |regles|, g) ==> PlanDuGroupe(Du(plan, g), regles, |regles|, g, f)
    ensures Passage(regles, actions, f, f')
  {
    hide ActionPrevue, Candidature, Devenu, Marquee, EnErreur, PlanDuGroupe;
    forall i, j | 0 <= i < |regles| && 0 <= j < |regles| && regles[i].groupe == regles[j].groupe && actions[i] == Ecrite
      ensures actions[j] !in {Refusee, AEcrire}
    {
      PrevueSimple(regles[i], Lu(f, regles[i]));
      GroupeTenu(regles, Prevues(regles, f)[i], j, regles[i].groupe, issues, f);
    }
    forall i | 0 <= i < |regles| && actions[i] == AEcrire
      ensures exists j | 0 <= j < |regles| :: regles[j].groupe == regles[i].groupe && actions[j] == Refusee
    {
      var g := regles[i].groupe;
      PasMarquee(Prevues(regles, f)[i], g, issues);
      var j := RefusDuGroupe(regles, i, plan, f);
      assert Marquee(Refusee, g, issues) == Refusee by { RefusReste(g, issues); }
    }
  }

  /** What a pass comes to when no operation fails and sshd accepts what it is shown: every rule to write is written,
      unless a rule of its group is refused. */
  ghost predicate SansPanne(regles: seq<Regle>, actions: seq<Action>, f: Fichiers) {
    |actions| == |regles| && forall i | 0 <= i < |regles| ::
      actions[i] ==
      var a := ActionPrevue(regles[i], Lu(f, regles[i]));
      if a != AEcrire then a
      else if exists j | 0 <= j < |regles| ::
                regles[j].groupe == regles[i].groupe && ActionPrevue(regles[j], Lu(f, regles[j])) == Refusee
      then AEcrire
      else Ecrite
  }

  /** When every group is written, every rule to write in a group without refusal is. */
  lemma ToutEcrit(regles: seq<Regle>, actions: seq<Action>, issues: Issues, plan: Plan, f: Fichiers, f': Fichiers)
    requires EnMarche(regles, actions, issues, f, f') && issues.Keys == plan.Keys
    requires forall g | g in issues :: issues[g] == Ecrit
    requires forall g | g in plan :: !EnErreur(regles, f, |regles|, g)
    requires forall g :: !EnErreur(regles, f, |regles|, g) ==> PlanDuGroupe(Du(plan, g), regles, |regles|, g, f)
    ensures SansPanne(regles, actions, f)
  {
    hide ActionPrevue, Candidature, Devenu, PlanDuGroupe;
    forall i | 0 <= i < |regles| && Prevues(regles, f)[i] == AEcrire
      ensures regles[i].groupe in plan <==> !EnErreur(regles, f, |regles|, regles[i].groupe)
    {
      var g := regles[i].groupe;
      if g !in plan { var j := RefusDuGroupe(regles, i, plan, f); }
    }
  }

  lemma GroupeTenu(regles: seq<Regle>, prevue: Action, j: nat, g: Groupe, issues: Issues, f: Fichiers)
    requires j < |regles| && regles[j].groupe == g && prevue != Ecrite && Marquee(prevue, g, issues) == Ecrite
    requires forall g | g in issues :: !EnErreur(regles, f, |regles|, g)
    ensures Marquee(Prevues(regles, f)[j], g, issues) !in {Refusee, AEcrire}
  {
    hide ActionPrevue;
    assert g in issues && !EnErreur(regles, f, |regles|, g);
  }

  lemma PasMarquee(prevue: Action, g: Groupe, issues: Issues)
    requires Marquee(prevue, g, issues) == AEcrire
    ensures prevue == AEcrire && g !in issues
  {
  }

  lemma RefusReste(g: Groupe, issues: Issues)
    ensures Marquee(Refusee, g, issues) == Refusee
  {
  }

  /** A group with a rule to write and no candidates holds a refusal. */
  lemma RefusDuGroupe(regles: seq<Regle>, i: nat, plan: Plan, f: Fichiers) returns (j: nat)
    requires i < |regles| && Prevues(regles, f)[i] == AEcrire && regles[i].groupe !in plan
    requires !EnErreur(regles, f, |regles|, regles[i].groupe) ==>
               PlanDuGroupe(Du(plan, regles[i].groupe), regles, |regles|, regles[i].groupe, f)
    ensures j < |regles| && regles[j].groupe == regles[i].groupe && Prevues(regles, f)[j] == Refusee
  {
    hide ActionPrevue, Candidature, Planifie;
    assert Du(plan, regles[i].groupe) == [];
    j :| 0 <= j < |regles| && regles[j].groupe == regles[i].groupe &&
        ActionPrevue(regles[j], Lu(f, regles[j])) == Refusee;
  }

  lemma PrevueSimple(r: Regle, o: Option<string>)
    ensures ActionPrevue(r, o) !in {Ecrite, NonRecharge, EcartEffectif}
  {
  }

  lemma DepartEnMarche(regles: seq<Regle>, f: Fichiers)
    ensures EnMarche(regles, Prevues(regles, f), map[], f, f)
  {
    hide ActionPrevue, Candidature;
    forall i | 0 <= i < |regles| ensures Devenu(regles[i], Prevues(regles, f)[i], Lu(f, regles[i]), Lu(f, regles[i])) {
      PrevueSimple(regles[i], Lu(f, regles[i]));
    }
  }

  /** A planned group can be committed: what it counts on is still so. */
  lemma PretAEcrire(regles: seq<Regle>, actions: seq<Action>, issues: Issues, g: Groupe, cs: seq<Candidat>,
      f: Fichiers, f1: Fichiers)
    requires EnMarche(regles, actions, issues, f, f1) && g !in issues && PlanDuGroupe(cs, regles, |regles|, g, f)
    ensures Distincts(cs) && forall k | 0 <= k < |cs| :: cs[k].tmp.None? && cs[k].bak.None?
    ensures forall k | 0 <= k < |cs| :: cs[k].existe <==> Lire(f1, cs[k].Vers()).Some?
  {
    hide ActionPrevue, Candidature;
    forall k | 0 <= k < |cs|
      ensures cs[k].tmp.None? && cs[k].bak.None? && (cs[k].existe <==> Lire(f1, cs[k].Vers()).Some?)
    {
      assert Planifie(cs[k], regles, |regles|, g, f);
      var i :| 0 <= i < |regles| && regles[i] == cs[k].regle;
      assert Devenu(regles[i], actions[i], Lu(f, regles[i]), Lu(f1, regles[i]));
    }
  }

  /** One turn over the groups. */
  method EcrireUnGroupe(racine: Racine, regles: seq<Regle>, actions: seq<Action>, g: Groupe, cs: seq<Candidat>,
      horodatage: string,
                        ghost issues: Issues, ghost f: Fichiers)
    returns (actions': seq<Action>, ghost issues': Issues)
    requires EnMarche(regles, actions, issues, f, racine.fichiers) && g !in issues &&
        PlanDuGroupe(cs, regles, |regles|, g, f)
    requires forall i, j | 0 <= i < j < |regles| :: regles[i].rel != regles[j].rel
    modifies racine
    ensures MemesCompteurs(old(racine.rechargements), old(racine.rechargesRates), old(racine.dconfAJour), racine)
    ensures g in issues' && issues' == issues[g := issues'[g]]
    ensures racine.incidents >= old(racine.incidents) + (if issues'[g] == Ecrit then 0 else 1)
    ensures EnMarche(regles, actions', issues', f, racine.fichiers)
  {
    hide PlanDuGroupe, EnMarche;
    ghost var f1 := racine.fichiers;
    PretAEcrire(regles, actions, issues, g, cs, f, f1);
    assert |actions| == |regles| by { LongueurEnMarche(regles, actions, issues, f, f1); }
    var issue := racine.EcrireGroupe(cs, horodatage);
    actions' := Marquer(actions, regles, g, if issue == Ecrit then Ecrite else Refusee);
    issues' := issues[g := issue];
    ghost var f2 := racine.fichiers;
    assert forall rel: string | !DuGroupe(rel, cs) :: Lire(f2, Cible(rel)) == Lire(f1, Cible(rel)) by {
      forall rel: string | !DuGroupe(rel, cs) ensures Lire(f2, Cible(rel)) == Lire(f1, Cible(rel)) {
        assert Cible(rel).rel == rel;
      }
    }
    GroupeEcrit(regles, actions, actions', issues, g, issue, cs, f, f1, f2);
  }

  lemma LongueurEnMarche(regles: seq<Regle>, actions: seq<Action>, issues: Issues, f: Fichiers, f': Fichiers)
    requires EnMarche(regles, actions, issues, f, f')
    ensures |actions| == |regles|
  {
  }

  /** Every group of the plan, in the order of their names. */
  method EcrireGroupes(racine: Racine, regles: seq<Regle>, prevues: seq<Action>, plan: Plan, horodatage: string)
    returns (actions: seq<Action>)
    requires forall i, j | 0 <= i < j < |regles| :: regles[i].rel != regles[j].rel
    requires prevues == Prevues(regles, racine.fichiers)
    requires forall g | g in plan :: !EnErreur(regles, racine.fichiers, |regles|, g)
    requires forall g :: !EnErreur(regles, racine.fichiers, |regles|, g) ==>
        PlanDuGroupe(Du(plan, g), regles, |regles|, g, racine.fichiers)
    modifies racine
    ensures MemesCompteurs(old(racine.rechargements), old(racine.rechargesRates), old(racine.dconfAJour), racine)
    ensures racine.incidents >= old(racine.incidents)
    ensures racine.incidents == old(racine.incidents) ==> SansPanne(regles, actions, old(racine.fichiers))
    ensures Passage(regles, actions, old(racine.fichiers), racine.fichiers)
  {
    hide PlanDuGroupe, EnMarche, EnErreur, Passage;
    ghost var f := racine.fichiers;
    ghost var issues: Issues := map[];
    actions := prevues;
    DepartEnMarche(regles, f);
    for k := 0 to |GROUPES|
      invariant EnMarche(regles, actions, issues, f, racine.fichiers)
      invariant MemesCompteurs(old(racine.rechargements), old(racine.rechargesRates), old(racine.dconfAJour), racine)
      invariant racine.incidents >= old(racine.incidents)
      invariant racine.incidents == old(racine.incidents) ==> forall g | g in issues :: issues[g] == Ecrit
      invariant forall g :: g in issues <==> g in plan && g in GROUPES[..k]
    {
      var g := GROUPES[k];
      assert g !in GROUPES[..k];
      assert GROUPES[..k + 1] == GROUPES[..k] + [g];
      if g in plan {
        actions, issues := EcrireUnGroupe(racine, regles, actions, g, plan[g], horodatage, issues, f);
      }
    }
    assert GROUPES[..|GROUPES|] == GROUPES;
    assert issues.Keys == plan.Keys by { TousLesGroupes(); }
    PassageEntier(regles, actions, issues, plan, f, racine.fichiers);
    if racine.incidents == old(racine.incidents) { ToutEcrit(regles, actions, issues, plan, f, racine.fichiers); }
  }

  lemma TousLesGroupes()
    ensures forall g: Groupe :: g in GROUPES
  {
    forall g: Groupe ensures g in GROUPES {
      match g
      case Nsswitch => assert GROUPES[0] == g;
      case PilesPAM => assert GROUPES[1] == g;
      case SshdConfig => assert GROUPES[2] == g;
      case EcranDeConnexion => assert GROUPES[3] == g;
    }
  }

  /** `Reconcilier`.  `suite` holds the findings of the reload and of the effective configuration. */
  method Reconcilier(racine: Racine, famille: Famille, horodatage: string) returns (etat: Etat, actions: seq<Action>,
      suite: seq<Action>)
    modifies racine
    ensures famille == Inconnue ==> etat == NonPrisEnCharge && racine.fichiers == old(racine.fichiers)
    ensures famille != Inconnue ==>
              Passage(ReglesSur(famille, old(racine.fichiers)), actions, old(racine.fichiers), racine.fichiers)
              && etat == EtatDe(actions + suite)
              && (racine.incidents == old(racine.incidents) ==>
                    SansPanne(ReglesSur(famille, old(racine.fichiers)), actions, old(racine.fichiers))
                    && NonRecharge !in suite)
              && (forall a | a in suite :: a in {NonRecharge, EcartEffectif})
              && racine.rechargements == old(racine.rechargements)
                 + (if ApresEcrit(ReglesSur(famille, old(racine.fichiers)), actions, ApresSshd) then 1 else 0)
              && racine.dconfAJour == old(racine.dconfAJour)
                 + (if ApresEcrit(ReglesSur(famille, old(racine.fichiers)), actions, ApresDconf) then 1 else 0)
              && (NonRecharge in suite <==> racine.rechargesRates > old(racine.rechargesRates))
  {
    hide ReglesDe, PlanDuGroupe, EnErreur, Passage, EtatDe, SansPanne, ApresEcrit;
    actions, suite := [], [];
    if famille == Inconnue { return NonPrisEnCharge, actions, suite; }
    var regles := ReglesDe(famille, Lire(racine.fichiers, Cible(GDM)).Some?);
    NomsDistincts(famille, Lire(racine.fichiers, Cible(GDM)).Some?);
    var prevues, plan := Planifier(racine, regles);
    actions := EcrireGroupes(racine, regles, prevues, plan, horodatage);
    if ApresEcrit(regles, actions, ApresSshd) {
      var recharge := racine.Recharger();
      if !recharge { suite := suite + [NonRecharge]; }
    }
    if ApresEcrit(regles, actions, ApresDconf) { racine.MettreDconfAJour(); }
    var effectif: bool := *;
    if !effectif { suite := suite + [EcartEffectif]; }
    etat := Resumer(actions + suite);
  }

  /** `ecrits[apres]` */
  predicate ApresEcrit(regles: seq<Regle>, actions: seq<Action>, apres: Apres) {
    exists i | 0 <= i < |regles| && i < |actions| :: regles[i].apres == apres && actions[i] == Ecrite
  }

  ghost predicate MemesCompteurs(recharges: nat, rates: nat, dconf: nat, racine: Racine)
    reads racine`rechargements, racine`rechargesRates, racine`dconfAJour
  {
    racine.rechargements == recharges && racine.rechargesRates == rates && racine.dconfAJour == dconf
  }
}
