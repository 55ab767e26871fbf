/** What a constant policy does over time: audit modules, detected drift, the steady state. */
module Regime {
  import opened Options
  import opened Cles
  import opened Proprietes
  import opened Inventaires
  import opened Etat
  import opened Fermeture
  import opened Application
  import opened Construction
  import opened Cycles

  // --- audit is never rewritten ----------------------------------------------------

  /** Module `i` of the policy is in audit, recorded under its fingerprint, its mode known. */
  ghost predicate AuditPose(m: Monde, p: Policy, i: nat)
    requires i < |p.modules|
  {
    && m.etat.Some?
    && Mode(p.modules[i]) == Audit
    && DejaPose(p.modules[i], m.etat)
    && m.etat.value.modes == ModesDe(p.modules)
  }

  ghost predicate DeLaPolitique(pas: Pas, p: Policy) {
    pas.Cycle? ==> pas.policy == p
  }

  /** The home of the scope is found and the markers of the module expand. */
  ghost predicate Ouvert(c: Pas, m: Module)
    requires c.Cycle?
  {
    (c.portee.Machine? || c.home) && m.stateKey !in c.erreurs
  }

  /** The steps through which an audit module in place is left alone.  On a state that was read, only a saved
      cycle that could not even start the module is not one; on a state that could not be, a cycle must
      neither call the applier nor be saved. */
  ghost predicate PasSur(pas: Pas, m: Module) {
    match pas
    case Perte => false
    case Cycle(_, _, appl, _, _, lu, sauve) =>
      if lu then sauve ==> Ouvert(pas, m) else !sauve && !(Ouvert(pas, m) && appl(m).Some?)
    case _ => true
  }

  lemma {:induction false} PasExecute(c: Pas, ms: seq<Module>, avant: Option<EtatScope>, i: nat)
    requires c.Cycle? && ClesDistinctes(ms) && i < |ms|
    ensures ms[i].stateKey in Executes(c, ms, avant) <==> Execute1(c, ms[i], avant)
    ensures forall k | k in Executes(c, ms, avant) :: k in ClesDe(ms)
  {
    hide Execute1, ClesDistinctes, ClesDe;
    var n := |ms| - 1;
    var reste := ms[..n];
    CleUnique(ms, n);
    DerniereCle(ms);
    if n > 0 { PasExecute(c, reste, avant, if i < n then i else 0); }
    assert n == 0 ==> Executes(c, reste, avant) == [];
    if i < n {
      assert reste[i] == ms[i];
      CleDe(reste, i);
    }
  }

  lemma DerniereCle(ms: seq<Module>)
    requires ms != []
    ensures ClesDe(ms) == ClesDe(ms[..|ms| - 1]) + {ms[|ms| - 1].stateKey}
  {
    var n := |ms| - 1;
    assert forall j | 0 <= j < n :: ms[..n][j] == ms[j];
  }

  lemma CleUnique(ms: seq<Module>, n: nat)
    requires ClesDistinctes(ms) && n == |ms| - 1
    ensures ClesDistinctes(ms[..n]) && ms[n].stateKey !in ClesDe(ms[..n])
  {
    assert forall j | 0 <= j < n :: ms[..n][j] == ms[j];
  }

  /** The appliers called by a step. */
  ghost function Appels(e: Option<EtatScope>, pas: Pas): seq<Cle> {
    if pas.Cycle? then Executes(pas, pas.policy.modules, Lu(e, pas)) else []
  }

  lemma AuditOubli(e: EtatScope, p: Policy, i: nat, pas: Pas)
    requires i < |p.modules| && ClesDistinctes(p.modules) && !pas.Cycle? && pas != Perte
    requires Mode(p.modules[i]) == Audit && DejaPose(p.modules[i], Some(e)) && e.modes == ModesDe(p.modules)
    ensures var f := EtatSuivant(Some(e), pas);
            f.Some? && DejaPose(p.modules[i], f) && f.value.modes == e.modes
  {
    hide ModesDe, Mode, ClesDistinctes, AttenteManquante, ModuleMode;
    ModeAudit(e, p, i);
  }

  lemma AuditCycle(m: Monde, c: Pas, p: Policy, i: nat)
    requires i < |p.modules| && ClesDistinctes(p.modules) && AuditPose(m, p, i)
    requires c.Cycle? && c.policy == p
    ensures AuditPose(Avancer(m, c), p, i) && p.modules[i].stateKey !in Appels(m.etat, c) <==> PasSur(c, p.modules[i])
  {
    hide Enregistre, Executes, Dernieres, ModesDe, Mode, ClesDistinctes, ClesDe;
    var avant := Lu(m.etat, c);
    EnregistreEn(c, avant, i);
    PasExecute(c, p.modules, avant, i);
    ModesEnregistres(c, avant);
  }

  lemma ModesEnregistres(c: Pas, avant: Option<EtatScope>)
    requires c.Cycle? && PasValide(c)
    ensures Enregistre(c.portee, c.home, c.policy, avant, c.appl, c.erreurs).modes == ModesDe(c.policy.modules)
  {
    hide ModesDe, Rapport, RapportPour, FormeClose;
  }

  /** One step of this policy leaves an audit module in place and untouched exactly if it is a safe one. */
  lemma AuditUnPas(m: Monde, pas: Pas, p: Policy, i: nat)
    requires i < |p.modules| && ClesDistinctes(p.modules) && AuditPose(m, p, i) && DeLaPolitique(pas, p)
    ensures AuditPose(Avancer(m, pas), p, i) && p.modules[i].stateKey !in Appels(m.etat, pas)
        <==> PasSur(pas, p.modules[i])
  {
    if pas.Cycle? {
      AuditCycle(m, pas, p, i);
    } else if pas != Perte {
      hide EtatSuivant, ModesDe, Mode, ClesDistinctes, DejaPose;
      AuditOubli(m.etat.value, p, i, pas);
    }
  }

  /** Through the whole run, the module stays recorded and its applier is not called. */
  ghost predicate Intact(m: Monde, run: seq<Pas>, p: Policy, i: nat)
    requires i < |p.modules| && forall j | 0 <= j < |run| :: PasValide(run[j])
  {
    forall n | 0 <= n <= |run| ::
      var a := Parcourir(m, run[..n]);
      AuditPose(a, p, i) && (n < |run| ==> p.modules[i].stateKey !in Appels(a.etat, run[n]))
  }

  /** Over any run of this policy, whatever drifts and through both catch-ups, with states that could not be
      saved or read: once applied, an audit module stays recorded and its applier is never called again if
      and only if every step is a safe one. */
  lemma AuditJamaisReecrit(m: Monde, run: seq<Pas>, p: Policy, i: nat)
    requires i < |p.modules| && ClesDistinctes(p.modules) && AuditPose(m, p, i)
    requires forall j | 0 <= j < |run| :: DeLaPolitique(run[j], p) && PasValide(run[j])
    ensures Intact(m, run, p, i) <==> forall j | 0 <= j < |run| :: PasSur(run[j], p.modules[i])
  {
    hide AuditPose, PasSur, Appels, Avancer;
    if forall j | 0 <= j < |run| :: PasSur(run[j], p.modules[i]) {
      forall n | 0 <= n <= |run| ensures var a := Parcourir(m, run[..n]);
          AuditPose(a, p, i) && (n < |run| ==> p.modules[i].stateKey !in Appels(a.etat, run[n]))
      {
        AuditJusque(m, run, p, i, n);
        if n < |run| { AuditUnPas(Parcourir(m, run[..n]), run[n], p, i); }
      }
    }
    if Intact(m, run, p, i) {
      forall j | 0 <= j < |run| ensures PasSur(run[j], p.modules[i]) {
        var a := Parcourir(m, run[..j]);
        assert run[..j + 1][..j] == run[..j];
        assert Parcourir(m, run[..j + 1]) == Avancer(a, run[j]);
        AuditUnPas(a, run[j], p, i);
      }
    }
  }

  lemma {:induction false} AuditJusque(m: Monde, run: seq<Pas>, p: Policy, i: nat, n: nat)
    requires i < |p.modules| && ClesDistinctes(p.modules) && AuditPose(m, p, i) && n <= |run|
    requires forall j | 0 <= j < |run| :: DeLaPolitique(run[j], p) && PasValide(run[j]) && PasSur(run[j], p.modules[i])
    ensures AuditPose(Parcourir(m, run[..n]), p, i)
  {
    hide AuditPose, PasSur, Appels, Avancer, ClesDistinctes;
    if n > 0 {
      AuditJusque(m, run, p, i, n - 1);
      assert run[..n][..n - 1] == run[..n - 1];
      AuditUnPas(Parcourir(m, run[..n - 1]), run[n - 1], p, i);
    }
  }

  /** What a cycle that is not safe costs: its applier is called over whatever the machine had become, in that
      cycle or in the next safe one that was read. */
  lemma AuditPerduSiEchec(m: Monde, c: Pas, p: Policy, i: nat, suivant: Pas)
    requires i < |p.modules| && ClesDistinctes(p.modules) && AuditPose(m, p, i)
    requires c.Cycle? && c.policy == p
    requires suivant.Cycle? && suivant.policy == p && suivant.lu
    requires Ouvert(suivant, p.modules[i]) && suivant.appl(p.modules[i]).Some?
    ensures !PasSur(c, p.modules[i]) <==>
            p.modules[i].stateKey in Appels(m.etat, c) + Appels(Avancer(m, c).etat, suivant)
  {
    AuditCycle(m, c, p, i);
    EnregistreEn(c, Lu(m.etat, c), i);
    PasExecute(suivant, p.modules, Avancer(m, c).etat, i);
    PasExecute(c, p.modules, Lu(m.etat, c), i);
    ModesEnregistres(c, Lu(m.etat, c));
    hide Enregistre, Executes, Dernieres, ModesDe, Mode, ClesDistinctes;
  }

  /** One audit module in place.  A cycle that cannot read the state calls its applier; a saved one whose home
      is not found forgets it, and the next one calls its applier. */
  lemma AuditReecritExemple() returns (m: Monde, p: Policy, illisible: Pas, sansHome: Pas, suivant: Pas)
    ensures |p.modules| == 1 && ClesDistinctes(p.modules) && AuditPose(m, p, 0)
    ensures illisible.Cycle? && illisible.policy == p && p.modules[0].stateKey in Appels(m.etat, illisible)
    ensures sansHome.Cycle? && sansHome.policy == p && sansHome.lu && sansHome.sauve
    ensures suivant.Cycle? && PasSur(suivant, p.modules[0])
    ensures p.modules[0].stateKey in Appels(Avancer(m, sansHome).etat, suivant)
  {
    var mod := Module("motd", 1, "motd:-", "1", "audit", "");
    hide Enregistre, Executes, Dernieres, Avancer, EtatSuivant, Mode;
    p := Policy(1, "1", [mod]);
    var appl: Appliqueurs := (x: Module) => Some(Execution([], Reussi));
    ModeAuditExemple(mod);
    var e := EtatScope("1", 1, "applied", map["motd:-" := "1"], map[], map[], ModesDe([mod]), VERSION_INVENTAIRE);
    m := Monde(Some(e), map[], []);
    illisible := Cycle(Machine, p, appl, {}, true, false, false);
    sansHome := Cycle(Compte("ada"), p, appl, {}, false, true, true);
    suivant := Cycle(Compte("ada"), p, appl, {}, true, true, true);
    PasExecute(illisible, p.modules, None, 0);
    AuditPerduSiEchec(m, sansHome, p, 0, suivant);
    assert !PasSur(sansHome, mod) && PasSur(suivant, mod);
    PasExecute(sansHome, p.modules, m.etat, 0);
  }

  // --- the steady state ----------------------------------------------------------------

  ghost predicate EntreesDe<T>(m: map<string, Suivi<T>>, cles: set<Cle>) {
    forall c | c in m :: Canonique(m[c]) && Proprietaires(m[c]) <= cles
  }

  /** A policy recorded in full, and, for the machine, no expectation missing. */
  ghost predicate EnRegime(portee: Portee, e: EtatScope, p: Policy) {
    && ClesDistinctes(p.modules)
    && e.modules.Keys == ClesDe(p.modules)
    && e.modes == ModesDe(p.modules)
    && EntreesDe(e.files, ClesDe(p.modules))
    && EntreesDe(e.checks, ClesDe(p.modules))
    && (forall i | 0 <= i < |p.modules| ::
          DejaPose(p.modules[i], Some(e))
          && (portee.Machine? ==> !ManqueAttente(e, p.modules[i].genre, p.modules[i].stateKey)))
  }

  lemma SansApportInchange<T>(m: map<string, Suivi<T>>, cles: set<Cle>, c: seq<Apport<T>>)
    requires EntreesDe(m, cles) && "" !in cles && ApportsValides(c)
    requires forall i | 0 <= i < |c| :: !c[i].remplace && c[i].pose == map[]
    ensures FormeClose(m, cles, c) == m
  {
    var f := FormeClose(m, cles, c);
    forall p ensures p in f <==> p in m
      ensures p in m ==> f[p] == m[p]
    {
      SansApportEn(m, cles, c, p);
    }
    MapsEgales(f, m);
  }

  lemma SansApportProprietaires<T>(m: map<string, Suivi<T>>, cles: set<Cle>, c: seq<Apport<T>>, p: string)
    requires EntreesDe(m, cles) && ApportsValides(c)
    requires forall i | 0 <= i < |c| :: !c[i].remplace && c[i].pose == map[]
    ensures Apporteurs(c, p) == {}
    ensures ProprietairesFinals(m, cles, c, p) == if p in m then Proprietaires(m[p]) else {}
  {
    assert Remplaces(c) == {} && Apporteurs(c, p) == {};
    if p in m { assert Proprietaires(m[p]) * cles == Proprietaires(m[p]); }
  }

  lemma SansApportEn<T>(m: map<string, Suivi<T>>, cles: set<Cle>, c: seq<Apport<T>>, p: string)
    requires EntreesDe(m, cles) && "" !in cles && ApportsValides(c)
    requires forall i | 0 <= i < |c| :: !c[i].remplace && c[i].pose == map[]
    ensures p in FormeClose(m, cles, c) <==> p in m
    ensures p in m ==> FormeClose(m, cles, c)[p] == m[p]
  {
    SansApportProprietaires(m, cles, c, p);
    ProprietairesVus(m, cles, c, p);
    DernierApportSsi(c, p);
    if p in m { CanoniqueEstPose(m[p]); }
  }

  lemma {:induction false} RienExecute(c: Pas, ms: seq<Module>, avant: Option<EtatScope>)
    requires c.Cycle? && forall i | 0 <= i < |ms| :: !Execute1(c, ms[i], avant)
    ensures Executes(c, ms, avant) == []
  {
    if ms != [] { RienExecute(c, ms[..|ms| - 1], avant); }
  }

  lemma RegimeOutcome(portee: Portee, e: EtatScope, p: Policy, appl: Appliqueurs, erreurs: set<Cle>, i: nat)
    requires EnRegime(portee, e, p) && i < |p.modules| && erreurs !! ClesDe(p.modules)
    ensures OutcomeDe(portee, p.modules[i], Some(e), appl, erreurs) ==
        ModuleOutcome(p.modules[i].stateKey, Unchanged, map[], map[])
  {
    SansInscription(p.modules[i].stateKey);
    CleDe(p.modules, i);
    assert DejaPose(p.modules[i], Some(e));
  }

  lemma RegimeOutcomes(portee: Portee, e: EtatScope, p: Policy, appl: Appliqueurs, erreurs: set<Cle>)
    requires EnRegime(portee, e, p) && erreurs !! ClesDe(p.modules)
    ensures var outs := OutcomesDe(portee, p.modules, Some(e), appl, erreurs);
            forall i | 0 <= i < |outs| :: outs[i] == ModuleOutcome(p.modules[i].stateKey, Unchanged, map[], map[])
  {
    forall i | 0 <= i < |p.modules| { RegimeOutcome(portee, e, p, appl, erreurs, i); }
  }

  lemma RegimeEntrees(portee: Portee, e: EtatScope, p: Policy, outs: seq<ModuleOutcome>)
    requires EnRegime(portee, e, p) && |outs| == |p.modules|
    requires forall i | 0 <= i < |outs| :: outs[i] == ModuleOutcome(p.modules[i].stateKey, Unchanged, map[], map[])
    ensures FormeClose(e.files, ClesDe(p.modules), ApportsFichiers(outs)) == e.files
    ensures FormeClose(e.checks, ClesDe(p.modules), ApportsAttentes(outs)) == e.checks
  {
    hide FormeClose, Canonique, Attribuer;
    Convergence.ApportsDistincts(p.modules, outs);
    SansApportInchange(e.files, ClesDe(p.modules), ApportsFichiers(outs));
    SansApportInchange(e.checks, ClesDe(p.modules), ApportsAttentes(outs));
  }

  /** A cycle of any scope on a policy already recorded in full executes nothing and records the same state,
      as one that was applied. */
  lemma RegimeStable(portee: Portee, home: bool, e: EtatScope, p: Policy, appl: Appliqueurs, erreurs: set<Cle>)
    requires EnRegime(portee, e, p) && erreurs !! ClesDe(p.modules) && (portee.Machine? || home)
    ensures forall i | 0 <= i < |p.modules| :: !Execute(p.modules[i], Some(e), appl, erreurs)
    ensures Enregistre(portee, home, p, Some(e), appl, erreurs)
         == e.(fingerprint := p.fingerprint, version := p.version, status := StatutTexte(StatutApplied),
               inventaire := VERSION_INVENTAIRE)
  {
    var outs := OutcomesDe(portee, p.modules, Some(e), appl, erreurs);
    RapportBienForme(portee, home, p, Some(e), appl, erreurs);
    RegimeOutcomes(portee, e, p, appl, erreurs);
    RegimeModules(portee, e, p, outs);
    RegimeEntrees(portee, e, p, outs);
    assert Rapport(portee, home, p, Some(e), appl, erreurs) == Report(p.fingerprint, StatutApplied, outs);
  }

  lemma RegimeModules(portee: Portee, e: EtatScope, p: Policy, outs: seq<ModuleOutcome>)
    requires EnRegime(portee, e, p) && |outs| == |p.modules|
    requires forall i | 0 <= i < |outs| :: Reconduit(outs[i])
    ensures ModulesRetenus(p.modules, outs) == e.modules
  {
    var r := ModulesRetenus(p.modules, outs);
    forall k ensures k in r <==> k in e.modules
      ensures k in r ==> r[k] == e.modules[k]
    {
      if k in e.modules { RetenuEn(p.modules, outs, Rang(p.modules, k)); }
    }
    MapsEgales(r, e.modules);
  }

  // --- how the steady state is reached ---------------------------------------------------

  const ID_SSHD := CheckID(Attente(CHECK_SSH_EFFECTIF, "sshd", ""))

  /** The cycle leaves the module in place. */
  ghost predicate Mis(c: Pas, m: Module, avant: Option<EtatScope>)
    requires c.Cycle?
  {
    Ouvert(c, m) && (DejaPose(m, avant) || (c.appl(m).Some? && c.appl(m).value.verdict == Reussi))
  }

  /** A module that must declare an expectation does so: it had it, or is made to declare it without being
      replayed, or its applier declares it. */
  ghost predicate AttenteTenue(c: Pas, m: Module, avant: Option<EtatScope>)
    requires c.Cycle?
  {
    if DejaPose(m, avant) then
      || (ManqueAttente(avant.value, m.genre, m.stateKey) && m.directives != "")
      || (ID_SSHD in avant.value.checks && avant.value.checks[ID_SSHD].objet.kind == CHECK_SSH_EFFECTIF
          && m.stateKey in Proprietaires(avant.value.checks[ID_SSHD]))
    else c.appl(m).Some? && ID_SSHD in PlierAttentes(c.appl(m).value.gestes)
  }

  /** A saved cycle that leaves every module in place, whatever was recorded before, and on the machine with
      the expectations its types require, leaves the steady state: the cycles that follow execute nothing. */
  lemma EtablitRegime(c: Pas, avant: Option<EtatScope>)
    requires c.Cycle? && PasValide(c) && (c.portee.Machine? || c.home)
    requires forall i | 0 <= i < |c.policy.modules| :: Mis(c, c.policy.modules[i], avant)
    requires c.portee.Machine? ==>
               forall i | 0 <= i < |c.policy.modules| && c.policy.modules[i].genre == SSH_SERVER_CONFIG ::
                 AttenteTenue(c, c.policy.modules[i], avant)
    ensures EnRegime(c.portee, Enregistre(c.portee, c.home, c.policy, avant, c.appl, c.erreurs), c.policy)
  {
    hide Enregistre, Mis, AttenteTenue, ManqueAttente;
    var ms, f := c.policy.modules, Enregistre(c.portee, c.home, c.policy, avant, c.appl, c.erreurs);
    forall i | 0 <= i < |ms|
      ensures ms[i].stateKey in f.modules && DejaPose(ms[i], Some(f))
      ensures c.portee.Machine? ==> !ManqueAttente(f, ms[i].genre, ms[i].stateKey)
    {
      MisEnregistre(c, avant, i);
      if c.portee.Machine? { AttenteEnregistree(c, avant, i); }
    }
    forall k | k in f.modules ensures k in ClesDe(ms) { EnregistreDansLaPolitique(c, avant, k); }
    assert f.modules.Keys == ClesDe(ms);
    EntreesEnregistrees(c, avant);
    ModesEnregistres(c, avant);
  }

  lemma MisEnregistre(c: Pas, avant: Option<EtatScope>, i: nat)
    requires c.Cycle? && PasValide(c) && i < |c.policy.modules|
    ensures DejaPose(c.policy.modules[i], Some(Enregistre(c.portee, c.home, c.policy, avant, c.appl, c.erreurs)))
        <==> Mis(c, c.policy.modules[i], avant)
  {
    hide Enregistre;
    EnregistreEn(c, avant, i);
  }

  /** Every recorded entry is canonical and owned within the policy. */
  lemma EntreesEnregistrees(c: Pas, avant: Option<EtatScope>)
    requires c.Cycle? && PasValide(c)
    ensures var f := Enregistre(c.portee, c.home, c.policy, avant, c.appl, c.erreurs);
            EntreesDe(f.files, ClesDe(c.policy.modules)) && EntreesDe(f.checks, ClesDe(c.policy.modules))
  {
    hide Rapport, Canonique, Proprietaires, FormeClose, ModulesRetenus, ModesDe;
    var outs := Rapport(c.portee, c.home, c.policy, avant, c.appl, c.erreurs).modules;
    RapportBienForme(c.portee, c.home, c.policy, avant, c.appl, c.erreurs);
    FormeCloseDe(FichiersAvant(avant), c.policy.modules, ApportsFichiers(outs));
    FormeCloseDe(AttentesAvant(avant), c.policy.modules, ApportsAttentes(outs));
  }

  lemma FormeCloseDe<T>(m: map<string, Suivi<T>>, ms: seq<Module>, a: seq<Apport<T>>)
    requires ClesDistinctes(ms) && ApportsValides(a) && |a| == |ms|
    requires forall i | 0 <= i < |a| :: a[i].cle == ms[i].stateKey
    ensures EntreesDe(FormeClose(m, ClesDe(ms), a), ClesDe(ms))
  {
    ClesConnues(ms, a);
    hide FormeClose, Canonique, Proprietaires, ProprietairesFinals, ApportsValides, ClesDistinctes, ClesDe;
    forall p | p in FormeClose(m, ClesDe(ms), a)
      ensures Canonique(FormeClose(m, ClesDe(ms), a)[p])
      ensures Proprietaires(FormeClose(m, ClesDe(ms), a)[p]) <= ClesDe(ms)
    {
      EntreesCanoniques(m, ClesDe(ms), a, p);
    }
  }

  /** The expectation of `sshd` is that of one kind only. */
  lemma KindDeLID(a: Attente)
    requires CheckID(a) == ID_SSHD
    ensures a.kind == CHECK_SSH_EFFECTIF
  {
    var n, k := |a.kind|, |CHECK_SSH_EFFECTIF|;
    assert ID_SSHD[n] == '|';
    assert forall j | 0 <= j < |ID_SSHD| && ID_SSHD[j] == '|' :: j == k;
    assert CheckID(a)[..n] == a.kind && ID_SSHD[..k] == CHECK_SSH_EFFECTIF;
  }

  lemma {:induction false} PlierNomme(g: seq<Geste>, id: string)
    requires id in PlierAttentes(g)
    ensures CheckID(PlierAttentes(g)[id]) == id
  {
    var n := |g| - 1;
    LignesSuivantes(g[..n], g[n]);
    assert g == g[..n] + [g[n]];
    var l := LignesAttentes(g);
    assert l[..|l| - 1] == LignesAttentes(g[..n]);
    if id in PlierAttentes(g[..n]) { PlierNomme(g[..n], id); }
  }

  /** One tracked expectation after a cycle: its owner is kept or brings it, and its kind with it. */
  lemma AttenteEnForme(m: map<string, SystemCheck>, ms: seq<Module>, a: seq<Apport<Attente>>, i: nat)
    requires ClesDistinctes(ms) && ApportsValides(a) && |a| == |ms| && i < |a|
    requires forall j | 0 <= j < |a| :: a[j].cle == ms[j].stateKey
    requires forall j | 0 <= j < |a| && ID_SSHD in a[j].pose :: a[j].pose[ID_SSHD].objet.kind == CHECK_SSH_EFFECTIF
    requires ID_SSHD in a[i].pose
             || (!a[i].remplace && ID_SSHD in m && m[ID_SSHD].objet.kind == CHECK_SSH_EFFECTIF
                 && a[i].cle in Proprietaires(m[ID_SSHD]))
    ensures var f := FormeClose(m, ClesDe(ms), a);
            && ID_SSHD in f && f[ID_SSHD].objet.kind == CHECK_SSH_EFFECTIF
            && a[i].cle in ListeProprietaires(f[ID_SSHD])
  {
    hide FormeClose, CheckID, Canonique, ApportsValides, ClesDistinctes, ListeProprietaires, ClesDe, DernierApport,
         Minimum, Canon;
    ResteProprietaire(m, ms, a, i);
    assert "" !in ClesDe(ms) && forall j | 0 <= j < |a| :: a[j].cle in ClesDe(ms) by { ClesConnues(ms, a); }
    EntreesCanoniques(m, ClesDe(ms), a, ID_SSHD);
    DernierApportSsi(a, ID_SSHD);
    var d := DernierApport(a, ID_SSHD);
    ContenuDuDernier(m, ClesDe(ms), a, ID_SSHD, if d >= 0 then d else 0);
    if ID_SSHD in a[i].pose { assert a[i].cle in Apporteurs(a, ID_SSHD); }
    hide Apporteurs, ProprietairesFinals;
  }

  lemma ClesConnues<T>(ms: seq<Module>, a: seq<Apport<T>>)
    requires ClesDistinctes(ms) && |a| == |ms| && forall j | 0 <= j < |a| :: a[j].cle == ms[j].stateKey
    ensures "" !in ClesDe(ms) && forall j | 0 <= j < |a| :: a[j].cle in ClesDe(ms)
  {
  }

  /** An owner that is not applied again stays, and one that brings the entry owns it. */
  lemma ResteProprietaire<T>(m: map<string, Suivi<T>>, ms: seq<Module>, a: seq<Apport<T>>, i: nat)
    requires ClesDistinctes(ms) && |a| == |ms| && i < |a| && forall j | 0 <= j < |a| :: a[j].cle == ms[j].stateKey
    requires ID_SSHD in a[i].pose || (!a[i].remplace && ID_SSHD in m && a[i].cle in Proprietaires(m[ID_SSHD]))
    ensures a[i].cle in ProprietairesFinals(m, ClesDe(ms), a, ID_SSHD)
  {
    hide Proprietaires, CheckID;
    if ID_SSHD in a[i].pose { assert a[i].cle in Apporteurs(a, ID_SSHD); } else { CleDe(ms, i); }
  }

  /** What a module brings for that expectation in a cycle. */
  lemma AttenteApportee(c: Pas, m: Module, avant: Option<EtatScope>)
    requires c.Cycle? && c.portee.Machine?
    ensures var o := OutcomeDe(c.portee, m, avant, c.appl, c.erreurs);
            && (ID_SSHD in o.checks ==> o.checks[ID_SSHD].objet.kind == CHECK_SSH_EFFECTIF)
            && (DejaPose(m, avant) ==> o.resultat != Applied)
            && (Mis(c, m, avant) && m.genre == SSH_SERVER_CONFIG && AttenteTenue(c, m, avant) ==>
                  || ID_SSHD in o.checks
                  || (DejaPose(m, avant) && ID_SSHD in avant.value.checks
                      && avant.value.checks[ID_SSHD].objet.kind == CHECK_SSH_EFFECTIF
                      && m.stateKey in Proprietaires(avant.value.checks[ID_SSHD])))
  {
    hide ManqueAttente, CheckID, PlierFichiers, PlierAttentes;
    var o := OutcomeDe(c.portee, m, avant, c.appl, c.erreurs);
    var declare := AttentesDeclarees(m);
    SansInscription(m.stateKey);
    if ID_SSHD in o.checks { ApporteDuKind(c, m, avant); }
    if DejaPose(m, avant) && Ouvert(c, m) && m.genre == SSH_SERVER_CONFIG && m.directives != "" { Declaree(m); }
  }

  lemma ApporteDuKind(c: Pas, m: Module, avant: Option<EtatScope>)
    requires c.Cycle? && ID_SSHD in OutcomeDe(c.portee, m, avant, c.appl, c.erreurs).checks
    ensures OutcomeDe(c.portee, m, avant, c.appl, c.erreurs).checks[ID_SSHD].objet.kind == CHECK_SSH_EFFECTIF
  {
    hide ManqueAttente, CheckID, PlierFichiers, PlierAttentes;
    var o := OutcomeDe(c.portee, m, avant, c.appl, c.erreurs);
    var g := if DejaPose(m, avant) then Rattrapage(c.portee, m, avant, c.erreurs) else c.appl(m).value.gestes;
    assert ID_SSHD in PlierAttentes(g) && o.checks[ID_SSHD].objet == PlierAttentes(g)[ID_SSHD];
    PlierNomme(g, ID_SSHD);
    KindDeLID(o.checks[ID_SSHD].objet);
  }

  lemma Declaree(m: Module)
    requires m.genre == SSH_SERVER_CONFIG && m.directives != ""
    ensures ID_SSHD in PlierAttentes(AttentesDeclarees(m))
  {
    var g := AttentesDeclarees(m);
    var l := LignesAttentes(g);
    assert l[..0] == [] && l[0] == Inscription(ID_SSHD, g[0].attente);
    assert Plier(l) == Plier(l[..0])[ID_SSHD := g[0].attente];
  }

  /** The catch-up of expectations ends: a module in place, or applied, with the expectation its type requires held,
      brought or declared in this cycle, owns it in the state recorded. */
  lemma AttenteEnregistree(c: Pas, avant: Option<EtatScope>, i: nat)
    requires c.Cycle? && PasValide(c) && c.portee.Machine? && i < |c.policy.modules|
    requires Mis(c, c.policy.modules[i], avant)
    requires c.policy.modules[i].genre == SSH_SERVER_CONFIG ==> AttenteTenue(c, c.policy.modules[i], avant)
    ensures var m := c.policy.modules[i];
            !ManqueAttente(Enregistre(c.portee, c.home, c.policy, avant, c.appl, c.erreurs), m.genre, m.stateKey)
  {
    hide Mis, AttenteTenue, OutcomeDe, CheckID, FormeClose;
    var ms := c.policy.modules;
    if ms[i].genre == SSH_SERVER_CONFIG {
      var outs := Rapport(c.portee, c.home, c.policy, avant, c.appl, c.erreurs).modules;
      RapportBienForme(c.portee, c.home, c.policy, avant, c.appl, c.erreurs);
      forall j | 0 <= j < |ms|
        ensures outs[j] == OutcomeDe(c.portee, ms[j], avant, c.appl, c.erreurs)
        ensures ID_SSHD in outs[j].checks ==> outs[j].checks[ID_SSHD].objet.kind == CHECK_SSH_EFFECTIF
      {
        AttenteApportee(c, ms[j], avant);
      }
      AttenteApportee(c, ms[i], avant);
      AttenteEnForme(AttentesAvant(avant), ms, ApportsAttentes(outs), i);
    }
  }

  // --- when the policy fingerprint is recorded -------------------------------------

  /** The module fails: its markers do not expand, or its applier is called and fails. */
  ghost predicate EchoueEn(c: Pas, m: Module, avant: Option<EtatScope>)
    requires c.Cycle?
  {
    m.stateKey in c.erreurs || (!DejaPose(m, avant) && c.appl(m).Some? && c.appl(m).value.verdict == Echoue)
  }

  /** The module is skipped: it is not in place, and its type is unknown or it does not apply here. */
  ghost predicate SauteEn(c: Pas, m: Module, avant: Option<EtatScope>)
    requires c.Cycle?
  {
    && m.stateKey !in c.erreurs && !DejaPose(m, avant)
    && (c.appl(m).None? || c.appl(m).value.verdict == NonApplicable)
  }

  lemma ResultatsDuPas(c: Pas, avant: Option<EtatScope>)
    requires c.Cycle? && (c.portee.Machine? || c.home)
    ensures var ms := c.policy.modules;
            var outs := Rapport(c.portee, c.home, c.policy, avant, c.appl, c.erreurs).modules;
            && |outs| == |ms|
            && (forall i | 0 <= i < |ms| :: outs[i].resultat == Failed <==> EchoueEn(c, ms[i], avant))
            && (forall i | 0 <= i < |ms| :: outs[i].resultat == Skipped <==> SauteEn(c, ms[i], avant))
  {
    var ms := c.policy.modules;
    forall i | 0 <= i < |ms|
      ensures var o := OutcomeDe(c.portee, ms[i], avant, c.appl, c.erreurs);
              && (o.resultat == Failed <==> EchoueEn(c, ms[i], avant))
              && (o.resultat == Skipped <==> SauteEn(c, ms[i], avant))
    {
    }
    hide EchoueEn, SauteEn, OutcomeDe;
  }

  /** The policy passes for applied: the cycle could start and no module failed. */
  ghost predicate Applique(c: Pas, avant: Option<EtatScope>)
    requires c.Cycle?
  {
    (c.portee.Machine? || c.home) && forall i | 0 <= i < |c.policy.modules| :: !EchoueEn(c, c.policy.modules[i], avant)
  }

  ghost function EmpreinteDe(e: Option<EtatScope>): string { if e.Some? then e.value.fingerprint else "" }

  /** A cycle that does not pass for applied keeps the fingerprint recorded before, be it of another policy
      (apply.go:540-544). */
  lemma EmpreinteApres(c: Pas, avant: Option<EtatScope>)
    requires c.Cycle? && PasValide(c)
    ensures Enregistre(c.portee, c.home, c.policy, avant, c.appl, c.erreurs).fingerprint
         == if Applique(c, avant) then c.policy.fingerprint else EmpreinteDe(avant)
  {
    hide EchoueEn, SauteEn, OutcomesDe, OutcomeDe, ModulesRetenus, ClesDe, FormeClose, ModesDe, RapportPour,
         ClesDistinctes;
    RapportBienForme(c.portee, c.home, c.policy, avant, c.appl, c.erreurs);
    if c.portee.Machine? || c.home { ResultatsDuPas(c, avant); }
  }

  /** A saved cycle leaves the fingerprint of its policy recorded with some module unrecorded exactly if the
      policy passes for applied or its fingerprint was there already, and some module could not start, fails
      or is skipped.  A skip does not count as a failure, against apply.go:357-360 and 538-539. */
  lemma EmpreinteDePolitique(c: Pas, avant: Option<EtatScope>)
    requires c.Cycle? && PasValide(c)
    ensures var ms, f := c.policy.modules,
                         Enregistre(c.portee, c.home, c.policy, avant, c.appl, c.erreurs);
            f.fingerprint == c.policy.fingerprint && f.modules.Keys != ClesDe(ms) <==>
              && (Applique(c, avant) || EmpreinteDe(avant) == c.policy.fingerprint)
              && (exists i :: 0 <= i < |ms|
                    && (!Ouvert(c, ms[i]) || EchoueEn(c, ms[i], avant) || SauteEn(c, ms[i], avant)))
  {
    hide ClesDistinctes, Enregistre, Applique, EmpreinteDe;
    var ms := c.policy.modules;
    var f := Enregistre(c.portee, c.home, c.policy, avant, c.appl, c.erreurs);
    EmpreinteApres(c, avant);
    forall i | 0 <= i < |ms|
      ensures ms[i].stateKey in f.modules <==>
                !(!Ouvert(c, ms[i]) || EchoueEn(c, ms[i], avant) || SauteEn(c, ms[i], avant))
      ensures ms[i].stateKey in ClesDe(ms)
    {
      EnregistreEn(c, avant, i);
    }
    forall k | k in f.modules ensures k in ClesDe(ms) { EnregistreDansLaPolitique(c, avant, k); }
    if f.modules.Keys != ClesDe(ms) {
      var k :| k in ClesDe(ms) && k !in f.modules;
      assert ms[Rang(ms, k)].stateKey == k;
    }
  }
}
