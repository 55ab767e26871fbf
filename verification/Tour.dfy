/** The machine round as the agent runs it (`runMachineCycleWith`, cycle.go:330-374): scan, forget, ask,
    apply, record; and the convergence it is for. */
module Tours {
  import opened Options
  import opened Cles
  import opened Inventaires
  import opened Disques
  import opened Etat
  import opened Fermeture
  import opened Application
  import opened Construction
  import opened Derive
  import opened Convergence
  import opened Cycles

  /** What the server answers: nothing to do when the fingerprint it is told is that of the policy it holds
      (gpo_manager/handlers.go:160-168). */
  function ReponseDuServeur(applique: string, p: Policy): Reponse {
    if applique == p.fingerprint then Inchangee else Recue(p)
  }

  /** `AppliedFingerprint` */
  function Appliquee(e: Option<EtatScope>): string {
    if e.None? || e.value.fingerprint == "" then "none" else e.value.fingerprint
  }

  method AppliedFingerprint(depot: Depot, portee: Portee) returns (f: string)
    modifies depot`incidents
    ensures depot.incidents >= old(depot.incidents)
    ensures f == if depot.incidents == old(depot.incidents) then Appliquee(EtatDe(depot.enregistre, portee)) else "none"
  {
    var lu := depot.LoadState();
    if portee !in lu || lu[portee].fingerprint == "" { return "none"; }
    f := lu[portee].fingerprint;
  }

  /** `rattraperAttentesMachine`: the policy fingerprint goes when an expectation is missing. */
  method RattraperAttentesMachine(depot: Depot) returns (ghost pas: Pas)
    modifies depot
    ensures depot.incidents >= old(depot.incidents)
    ensures AutresPortees(old(depot.enregistre), depot.enregistre, Machine)
    ensures pas.ReprendreAttentes?
    ensures EtatDe(depot.enregistre, Machine) == EtatSuivant(EtatDe(old(depot.enregistre), Machine), pas)
    ensures depot.incidents == old(depot.incidents) ==>
              pas.sauve && forall q: Portee | q != Machine ::
                EtatDe(depot.enregistre, q) == EtatDe(old(depot.enregistre), q)
  {
    hide ManqueAttente;
    pas := ReprendreAttentes(false);
    var lu := depot.LoadState();
    if Machine !in lu || lu[Machine].fingerprint == "" || !AttenteManquante(lu[Machine]) {
      return ReprendreAttentes(depot.incidents == old(depot.incidents));
    }
    var s := new ScopeState(lu[Machine]);
    s.fingerprint := "";
    var ok := depot.SaveScopeState(Machine, s);
    pas := ReprendreAttentes(ok);
  }

  /** `rattraperInventaireUtilisateur` (drift_user.go:269-289) */
  method RattraperInventaireUtilisateur(depot: Depot, username: string) returns (ghost pas: Pas)
    modifies depot
    ensures depot.incidents >= old(depot.incidents)
    ensures AutresPortees(old(depot.enregistre), depot.enregistre, Compte(username))
    ensures pas.ReprendreInventaire?
    ensures EtatDe(depot.enregistre, Compte(username))
         == EtatSuivant(EtatDe(old(depot.enregistre), Compte(username)), pas)
    ensures depot.incidents == old(depot.incidents) ==> pas.sauve
  {
    hide ModuleMode;
    var portee := Compte(username);
    pas := ReprendreInventaire(depot.incidents == old(depot.incidents));
    var lu := depot.LoadState();
    pas := ReprendreInventaire(depot.incidents == old(depot.incidents));
    if portee !in lu || lu[portee].inventaire >= VERSION_INVENTAIRE { return; }
    var s := new ScopeState(lu[portee]);
    var rejoues := s.OublierPourLInventaire();
    if rejoues == 0 {
      assert ARejouer(lu[portee]) == {};
      return;
    }
    var ok := depot.SaveScopeState(portee, s);
    pas := ReprendreInventaire(ok);
  }

  // --- the round --------------------------------------------------------------------------------

  /** What a round comes to on the recorded state and the disk, when no read or write of the state fails. */
  ghost predicate Tourne(e: EtatScope, d: Contenu, v: Verificateurs, p: Policy, appl: Appliqueurs, erreurs: set<Cle>,
                         e': EtatScope, d': Contenu)
  {
    var oublie := ApresRattrapage(Oublie(e, d, v));
    if Appliquee(Some(oublie)) == p.fingerprint then e' == oublie && d' == d
    else
      && ClesDistinctes(p.modules)
      && e' == Enregistre(Machine, true, p, Some(oublie), appl, erreurs)
      && d' == Jouer(d, GestesCumules(p.modules, Some(oublie), appl, erreurs))
  }

  /** The steps of one round: the scan, the catch-up, and the cycle if the server sends the policy. */
  ghost predicate Tour(run: seq<Pas>, p: Policy, appl: Appliqueurs, erreurs: set<Cle>) {
    && 2 <= |run| <= 3 && run[0].Ecarts? && run[1].ReprendreAttentes?
    && (|run| == 3 ==> run[2].Cycle? && run[2] == Cycle(Machine, p, appl, erreurs, true, run[2].lu, run[2].sauve))
  }

  ghost function EtatParcouru(e: Option<EtatScope>, run: seq<Pas>): Option<EtatScope>
    requires forall i | 0 <= i < |run| :: PasValide(run[i])
  {
    Parcourir(Monde(e, map[], []), run).etat
  }

  lemma TroisPas(e: Option<EtatScope>, a: Pas, b: Pas, c: Pas)
    requires PasValide(a) && PasValide(b) && PasValide(c)
    ensures EtatParcouru(e, [a, b]) == EtatSuivant(EtatSuivant(e, a), b)
    ensures EtatParcouru(e, [a, b, c]) == EtatSuivant(EtatSuivant(EtatSuivant(e, a), b), c)
  {
    hide EtatSuivant, Dernieres, Executes;
    var m := Monde(e, map[], []);
    assert [a, b, c][..2] == [a, b] && [a, b][..1] == [a] && [a][..0] == [];
    assert Parcourir(m, [a]) == Avancer(m, a);
    assert Parcourir(m, [a, b]) == Avancer(Avancer(m, a), b);
  }

  /** One machine round, whatever the appliers do.  With failing reads and writes, the state it leaves is
      reached by the steps of a round. */
  method RunMachineCycleWith(depot: Depot, p: Policy, appl: Appliqueurs, erreurs: set<Cle>, v: Verificateurs,
                             inv: Inventaire, disque: Disque)
    returns (ghost run: seq<Pas>)
    requires inv.Valid() && ClesDistinctes(p.modules)
    modifies depot, inv, disque
    ensures inv.Valid() && depot.incidents >= old(depot.incidents)
    ensures AutresPortees(old(depot.enregistre), depot.enregistre, Machine)
    ensures Tour(run, p, appl, erreurs)
    ensures EtatDe(depot.enregistre, Machine) == EtatParcouru(EtatDe(old(depot.enregistre), Machine), run)
    ensures depot.incidents == old(depot.incidents) && Machine in old(depot.enregistre) ==>
              Machine in depot.enregistre
              && Tourne(old(depot.enregistre)[Machine], old(disque.noeuds), v, p, appl, erreurs,
                        depot.enregistre[Machine], disque.noeuds)
  {
    hide Oublie, ApresRattrapage, ApresEcarts, Enregistre, Jouer, GestesCumules, Scan, ClesDistinctes, EtatSuivant,
         EtatParcouru;
    ghost var d, avant := disque.noeuds, EtatDe(depot.enregistre, Machine);
    var _, ecarts := ScanMachineDrift(depot, v, disque);
    var attentes := RattraperAttentesMachine(depot);
    ghost var oublie := EtatDe(depot.enregistre, Machine);
    if avant.Some? && depot.incidents == old(depot.incidents) { OublieEst(avant.value, d, v, oublie, attentes); }
    var applique := AppliedFingerprint(depot, Machine);
    var reponse := ReponseDuServeur(applique, p);
    var _, _, cycle := RunCycle(depot, Machine, reponse, appl, erreurs, true, inv, disque);
    TroisPas(avant, ecarts, attentes, if reponse.Recue? then cycle else Perte);
    run := if reponse.Recue? then [ecarts, attentes, cycle] else [ecarts, attentes];
  }

  lemma OublieEst(e: EtatScope, d: Contenu, v: Verificateurs, oublie: Option<EtatScope>, pas: Pas)
    requires pas.ReprendreAttentes? && pas.sauve
    requires oublie == EtatSuivant(Some(ApresEcarts(e, Scan(e, d, v))), pas)
    ensures oublie == Some(ApresRattrapage(Oublie(e, d, v)))
  {
  }

  lemma CycleEst(e: EtatScope, d: Contenu, p: Policy, prog: Programme)
    requires ClesDistinctes(p.modules)
    ensures Enregistre(Machine, true, p, Some(e), Reussite(prog), {}) == EtatApres(e, p, prog)
    ensures Jouer(d, GestesCumules(p.modules, Some(e), Reussite(prog), {})) == DisqueApres(e, d, p, prog)
  {
  }

  // --- what the round is for --------------------------------------------------------------------

  /** Only the fingerprint of the policy tells the two states apart, and an application in which every
      applier succeeds does not read it. */
  lemma EmpreinteSansEffet(e: EtatScope, d: Contenu, p: Policy, prog: Programme)
    requires ClesDistinctes(p.modules)
    ensures EtatApres(e.(fingerprint := ""), p, prog) == EtatApres(e, p, prog)
    ensures DisqueApres(e.(fingerprint := ""), d, p, prog) == DisqueApres(e, d, p, prog)
  {
    hide OutcomesDe, GestesCumules, Reussite, FormeClose, ModulesRetenus, ModesDe, Jouer, RapportPour;
    var f := e.(fingerprint := "");
    MemesGestes(p.modules, e, f, Reussite(prog));
    MemesOutcomes(p.modules, e, f, prog);
    ToutReussi(p.modules, e, prog);
    RapportValide(Machine, p.modules, Some(e), Reussite(prog), {});
  }

  lemma MemesOutcomes(ms: seq<Module>, e: EtatScope, f: EtatScope, prog: Programme)
    requires f == e.(fingerprint := "")
    ensures OutcomesDe(Machine, ms, Some(e), Reussite(prog), {}) == OutcomesDe(Machine, ms, Some(f), Reussite(prog), {})
  {
    hide Attribuer, PlierFichiers, PlierAttentes, Reussite;
    forall i | 0 <= i < |ms|
      ensures OutcomeDe(Machine, ms[i], Some(e), Reussite(prog), {}) ==
          OutcomeDe(Machine, ms[i], Some(f), Reussite(prog), {}) {}
  }

  lemma ToutReussi(ms: seq<Module>, e: EtatScope, prog: Programme)
    ensures StatutDe(OutcomesDe(Machine, ms, Some(e), Reussite(prog), {})) == StatutApplied
  {
    forall i | 0 <= i < |ms| { OutcomeRejoue(ms[i], e, prog); }
  }

  lemma {:induction false} MemesGestes(ms: seq<Module>, e: EtatScope, f: EtatScope, appl: Appliqueurs)
    requires f == e.(fingerprint := "")
    ensures GestesCumules(ms, Some(e), appl, {}) == GestesCumules(ms, Some(f), appl, {})
  {
    if ms != [] { MemesGestes(ms[..|ms| - 1], e, f, appl); }
  }

  lemma {:induction false} GardesTout(e: EtatScope, items: seq<DriftItem>)
    requires forall i | i in items :: ToutEnAudit(e, i)
    ensures Gardes(e, items) == items
  {
    if items != [] {
      var n := |items| - 1;
      assert items == items[..n] + [items[n]];
      GardesTout(e, items[..n]);
    }
  }

  /** Nothing to forget: every item of the scan of the files is in audit. */
  lemma RienACorriger(e: EtatScope, d: Contenu, v: Verificateurs, p: Policy, prog: Programme)
    requires EtabliPour(e, p, prog) && Corriges(e, Scan(e, d, v)) == {}
    ensures Gardes(e, ScanFichiers(e, d)) == ScanFichiers(e, d)
  {
    DansCanon(e.files.Keys);
    var ps := Canon(e.files.Keys);
    forall i | i in ScanChemins(ps, e.files, d) ensures ToutEnAudit(e, i) {
      var c := CheminDe(ps, e.files, d, i);
      ItemEstUnConstat(e.files, d, c);
      RepondantsCanoniques(c, e.files[c], i.kind);
      ItemDuScan(e, d, v, c);
      EcartCorrige(e, Scan(e, d, v), i);
    }
    GardesTout(e, ScanChemins(ps, e.files, d));
  }

  lemma {:induction false} CheminDe(ps: seq<Chemin>, files: map<Chemin, FileState>, d: Contenu,
      i: DriftItem) returns (c: Chemin)
    requires (forall q | q in ps :: q in files) && i in ScanChemins(ps, files, d)
    ensures c in files && ItemFichier(files, d, c) == [i]
  {
    var n := |ps| - 1;
    assert forall q | q in ps[..n] :: q in ps;
    if i in ScanChemins(ps[..n], files, d) {
      c := CheminDe(ps[..n], files, d, i);
    } else {
      c := ps[n];
      assert c in ps;
    }
  }

  /** One-round convergence of the agent's own round, from a state built by a full application and whatever
      was done to the disk: what a scan of the files still finds is exactly, in order and unchanged, the
      items whose owners are all in audit, and the state is established for the policy again. */
  lemma TourConverge(e: EtatScope, d: Contenu, v: Verificateurs, p: Policy, prog: Programme, e': EtatScope, d': Contenu)
    requires EtabliPour(e, p, prog) && Tourne(e, d, v, p, Reussite(prog), {}, e', d') && p.fingerprint != "none"
    ensures EtabliPour(e', p, prog)
    ensures ScanFichiers(e', d') == Gardes(e, ScanFichiers(e, d))
  {
    hide EtatApres, DisqueApres, EtabliPour, Gardes, ScanFichiers, Oublie, AttenteManquante;
    var oublie := Oublie(e, d, v);
    var r := ApresRattrapage(oublie);
    if Appliquee(Some(r)) == p.fingerprint {
      TourSansEnvoi(e, d, v, p, prog);
    } else {
      assert ClesDistinctes(p.modules);
      CycleEst(r, d, p, prog);
      EmpreinteSansEffet(oublie, d, p, prog);
      ConvergenceEnUnTour(e, d, v, p, prog);
    }
  }

  lemma TourSansEnvoi(e: EtatScope, d: Contenu, v: Verificateurs, p: Policy, prog: Programme)
    requires EtabliPour(e, p, prog) && p.fingerprint != "none"
    requires Appliquee(Some(ApresRattrapage(Oublie(e, d, v)))) == p.fingerprint
    ensures EtabliPour(ApresRattrapage(Oublie(e, d, v)), p, prog)
    ensures ScanFichiers(ApresRattrapage(Oublie(e, d, v)), d) == Gardes(e, ScanFichiers(e, d))
  {
    assert Corriges(e, Scan(e, d, v)) == {};
    RienACorriger(e, d, v, p, prog);
  }
}
