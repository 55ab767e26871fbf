/** Whole cycles (cycle.go, verifiers_sshd.go:210-241) and what every run of them keeps. */
module Cycles {
  import opened Options
  import opened Cles
  import opened Inventaires
  import opened Disques
  import opened Etat
  import opened Fermeture
  import opened Application
  import opened Construction
  import opened Derive
  import Convergence

  // --- one cycle, as a function ---------------------------------------------------

  ghost function Rapport(portee: Portee, home: bool, p: Policy, avant: Option<EtatScope>, appl: Appliqueurs,
      erreurs: set<Cle>): Report {
    if portee.Machine? || home then RapportDe(portee, p, avant, appl, erreurs)
    else Report(p.fingerprint, StatutFailed, ToutEnEchec(p.modules))
  }

  lemma RapportBienForme(portee: Portee, home: bool, p: Policy, avant: Option<EtatScope>, appl: Appliqueurs,
      erreurs: set<Cle>)
    requires ClesDistinctes(p.modules)
    ensures RapportPour(p.modules, Rapport(portee, home, p, avant, appl, erreurs).modules)
  {
    if portee.Machine? || home {
      Convergence.RapportValide(portee, p.modules, avant, appl, erreurs);
    } else {
      Convergence.ApportsDistincts(p.modules, ToutEnEchec(p.modules));
    }
  }

  ghost function Enregistre(portee: Portee, home: bool, p: Policy, avant: Option<EtatScope>, appl: Appliqueurs,
      erreurs: set<Cle>): EtatScope
    requires ClesDistinctes(p.modules)
  {
    RapportBienForme(portee, home, p, avant, appl, erreurs);
    EtatConstruit(p, avant, Rapport(portee, home, p, avant, appl, erreurs))
  }

  /** Without inventory there is nothing to scan. */
  lemma SansInventaire(e: EtatScope, d: Contenu, v: Verificateurs)
    ensures |e.checks| + |e.files| == 0 ==> Scan(e, d, v) == [] && ApresEcarts(e, Scan(e, d, v)) == e
  {
    if |e.checks| + |e.files| == 0 {
      assert e.checks.Keys == {} && e.files.Keys == {};
      assert Canon({}) == [];
      assert Scan(e, d, v) == [];
      assert Corriges(e, []) == {};
    }
  }

  /** The mention of the items nobody corrects changes nothing to what is forgotten. */
  lemma MarquesEgaux(e: EtatScope, items: seq<DriftItem>, marques: seq<DriftItem>)
    requires |marques| == |items| && forall i | 0 <= i < |items| :: marques[i] == Marque(e, items[i])
    ensures ApresEcarts(e, marques) == ApresEcarts(e, items)
    ensures Corriges(e, marques) == Corriges(e, items)
  {
    hide ModuleMode, ToutEnAudit;
    forall i, k | 0 <= i < |items| ensures Repond(marques[i], k) <==> Repond(items[i], k) {}
    assert forall i | 0 <= i < |items| :: Repondants(marques[i]) == Repondants(items[i]);
    assert Corriges(e, marques) == Corriges(e, items);
  }

  // --- runs ---------------------------------------------------------------------------

  datatype Tentative = Tentative(fingerprint: string, succes: bool)

  /** One scope: what is recorded, the last execution of each module's applier, and every execution. */
  datatype Monde = Monde(etat: Option<EtatScope>, dernier: map<Cle, Tentative>, executions: seq<Cle>)

  /** `sauve`: the state file was written.  `lu`: it could be read (an unreadable one counts as none).
      `Perte`: the save of another scope over a file it could not re-read. */
  datatype Pas =
    | Ecarts(items: seq<DriftItem>, sauve: bool)
    | ReprendreInventaire(sauve: bool)
    | ReprendreAttentes(sauve: bool)
    | Cycle(portee: Portee, policy: Policy, appl: Appliqueurs, erreurs: set<Cle>, home: bool, lu: bool, sauve: bool)
    | Perte

  ghost predicate Execute1(c: Pas, m: Module, avant: Option<EtatScope>)
    requires c.Cycle?
  {
    (c.portee.Machine? || c.home) && Execute(m, avant, c.appl, c.erreurs)
  }

  ghost function Dernieres(c: Pas, ms: seq<Module>, avant: Option<EtatScope>, dernier: map<Cle, Tentative>): map<Cle,
      Tentative>
    requires c.Cycle?
  {
    if ms == [] then dernier
    else
      var m := ms[|ms| - 1];
      var d := Dernieres(c, ms[..|ms| - 1], avant, dernier);
      if Execute1(c, m, avant) then d[m.stateKey := Tentative(m.fingerprint, c.appl(m).value.verdict == Reussi)] else d
  }

  ghost function Executes(c: Pas, ms: seq<Module>, avant: Option<EtatScope>): seq<Cle>
    requires c.Cycle?
  {
    if ms == [] then []
    else Executes(c, ms[..|ms| - 1], avant) + (if Execute1(c, ms[|ms| - 1], avant) then [ms[|ms| - 1].stateKey] else [])
  }

  ghost predicate PasValide(pas: Pas) {
    pas.Cycle? ==> ClesDistinctes(pas.policy.modules)
  }

  ghost function Lu(e: Option<EtatScope>, c: Pas): Option<EtatScope>
    requires c.Cycle?
  {
    if c.lu then e else None
  }

  /** What is recorded after a step. */
  ghost function EtatSuivant(e: Option<EtatScope>, pas: Pas): Option<EtatScope>
    requires PasValide(pas)
  {
    match pas
    case Perte => None
    case Cycle(portee, p, appl, erreurs, home, _, sauve) =>
      if sauve then Some(Enregistre(portee, home, p, Lu(e, pas), appl, erreurs)) else e
    case Ecarts(items, sauve) => if e.Some? && sauve then Some(ApresEcarts(e.value, items)) else e
    case ReprendreInventaire(sauve) => if e.Some? && sauve then Some(OublierPourInventaire(e.value)) else e
    case ReprendreAttentes(sauve) => if e.Some? && sauve then Some(ApresRattrapage(e.value)) else e
  }

  ghost function Avancer(m: Monde, pas: Pas): Monde
    requires PasValide(pas)
  {
    if !pas.Cycle? then m.(etat := EtatSuivant(m.etat, pas))
    else
      var ms, avant := pas.policy.modules, Lu(m.etat, pas);
      Monde(EtatSuivant(m.etat, pas), Dernieres(pas, ms, avant, m.dernier), m.executions + Executes(pas, ms, avant))
  }

  ghost function Parcourir(m: Monde, run: seq<Pas>): Monde
    requires forall i | 0 <= i < |run| :: PasValide(run[i])
  {
    if run == [] then m else Avancer(Parcourir(m, run[..|run| - 1]), run[|run| - 1])
  }

  // --- history ------------------------------------------------------------------------

  /** A recorded fingerprint is that of the module's last execution, and that execution succeeded. */
  ghost predicate Fidele(m: Monde) {
    m.etat.Some? ==> forall k | k in m.etat.value.modules ::
      k in m.dernier && m.dernier[k] == Tentative(m.etat.value.modules[k], true)
  }

  lemma {:induction false} DernieresEn(c: Pas, ms: seq<Module>, avant: Option<EtatScope>, dernier: map<Cle,
      Tentative>, k: Cle)
    requires c.Cycle? && ClesDistinctes(ms)
    ensures k !in ClesDe(ms) ==> (k in Dernieres(c, ms, avant, dernier) <==> k in dernier)
    ensures k !in ClesDe(ms) && k in dernier ==> Dernieres(c, ms, avant, dernier)[k] == dernier[k]
    ensures k in ClesDe(ms) ==>
              var m := ms[Rang(ms, k)];
              if Execute1(c, m, avant)
              then k in Dernieres(c, ms, avant, dernier) &&
                  Dernieres(c, ms, avant, dernier)[k] == Tentative(m.fingerprint, c.appl(m).value.verdict == Reussi)
              else (k in Dernieres(c, ms, avant, dernier) <==> k in dernier)
                   && (k in dernier ==> Dernieres(c, ms, avant, dernier)[k] == dernier[k])
  {
    if ms != [] {
      var n := |ms| - 1;
      var reste := ms[..n];
      assert ms == reste + [ms[n]];
      DernieresEn(c, reste, avant, dernier, k);
      RangUnique(ms, n);
      if k in ClesDe(ms) && k != ms[n].stateKey {
        var i := Rang(ms, k);
        assert reste[i].stateKey == k;
        RangUnique(reste, i);
      }
      assert ms[n].stateKey !in ClesDe(reste) by { assert forall i | 0 <= i < n :: reste[i] == ms[i]; }
    }
  }

  lemma LongueurRapport(ms: seq<Module>, outs: seq<ModuleOutcome>)
    requires RapportPour(ms, outs)
    ensures |outs| == |ms|
  {
  }

  /** What a cycle leaves recorded for a module of its policy. */
  lemma EnregistreEn(c: Pas, avant: Option<EtatScope>, i: nat)
    requires c.Cycle? && ClesDistinctes(c.policy.modules) && i < |c.policy.modules|
    ensures var m := c.policy.modules[i];
            var f := Enregistre(c.portee, c.home, c.policy, avant, c.appl, c.erreurs).modules;
            && (m.stateKey in f ==> f[m.stateKey] == m.fingerprint)
            && (m.stateKey in f <==>
                  && (c.portee.Machine? || c.home) && m.stateKey !in c.erreurs
                  && (DejaPose(m, avant) || (c.appl(m).Some? && c.appl(m).value.verdict == Reussi)))
  {
    hide ModulesRetenus, RapportPour, FormeClose, ModesDe, ClesDe, ApportsFichiers, ApportsAttentes, Attribuer;
    var p := c.policy;
    var r := Rapport(c.portee, c.home, p, avant, c.appl, c.erreurs);
    RapportBienForme(c.portee, c.home, p, avant, c.appl, c.erreurs);
    assert |r.modules| == |p.modules| by { LongueurRapport(p.modules, r.modules); }
    RetenuEn(p.modules, r.modules, i);
    if c.portee.Machine? || c.home {
      assert r.modules[i] == OutcomeDe(c.portee, p.modules[i], avant, c.appl, c.erreurs);
    }
  }

  lemma EnregistreDansLaPolitique(c: Pas, avant: Option<EtatScope>, k: Cle)
    requires c.Cycle? && ClesDistinctes(c.policy.modules)
    requires k in Enregistre(c.portee, c.home, c.policy, avant, c.appl, c.erreurs).modules
    ensures k in ClesDe(c.policy.modules)
  {
  }

  /** A cycle whose result is saved keeps the history faithful, whatever the appliers do. */
  lemma CycleFidele(m: Monde, c: Pas)
    requires c.Cycle? && PasValide(c) && c.sauve && Fidele(m)
    ensures Fidele(Avancer(m, c))
  {
    hide Enregistre, Dernieres, Executes, ClesDistinctes;
    var avant := Lu(m.etat, c);
    var f := Enregistre(c.portee, c.home, c.policy, avant, c.appl, c.erreurs);
    var n := Avancer(m, c);
    forall k | k in f.modules ensures k in n.dernier && n.dernier[k] == Tentative(f.modules[k], true) {
      EnregistreDansLaPolitique(c, avant, k);
      var i := Rang(c.policy.modules, k);
      EnregistreEn(c, avant, i);
      DernieresEn(c, c.policy.modules, avant, m.dernier, k);
      if DejaPose(c.policy.modules[i], avant) { assert k in m.etat.value.modules; }
    }
  }

  ghost predicate Sauve(pas: Pas) { pas.Cycle? ==> pas.sauve }

  /** Over every run of drift scans, inventory and expectation catch-ups and cycles - changing policies,
      failures, skips, unreadable states - in which the cycles' states are saved. */
  lemma {:induction false} HistoireFidele(m: Monde, run: seq<Pas>)
    requires forall i | 0 <= i < |run| :: PasValide(run[i]) && Sauve(run[i])
    requires Fidele(m)
    ensures Fidele(Parcourir(m, run))
  {
    hide Avancer, Fidele, ClesDistinctes;
    if run != [] {
      var n := |run| - 1;
      HistoireFidele(m, run[..n]);
      var a := Parcourir(m, run[..n]);
      if run[n].Cycle? { CycleFidele(a, run[n]); } else { OubliFidele(a, run[n]); }
    }
  }

  lemma OubliFidele(m: Monde, pas: Pas)
    requires !pas.Cycle? && Fidele(m)
    ensures Fidele(Avancer(m, pas))
  {
    hide Corriges, ARejouer, AttenteManquante;
  }

  /** So "unchanged" is only ever reported for a module whose last execution succeeded under the very
      fingerprint received. */
  lemma InchangeEstVrai(m: Monde, run: seq<Pas>, c: Pas, i: nat)
    requires forall j | 0 <= j < |run| :: PasValide(run[j]) && Sauve(run[j])
    requires Fidele(m) && c.Cycle? && PasValide(c) && i < |c.policy.modules|
    ensures var a := Parcourir(m, run);
            var o := Rapport(c.portee, c.home, c.policy, Lu(a.etat, c), c.appl, c.erreurs).modules;
            |o| == |c.policy.modules| &&
            (o[i].resultat == Unchanged ==>
               c.policy.modules[i].stateKey in a.dernier
               && a.dernier[c.policy.modules[i].stateKey] == Tentative(c.policy.modules[i].fingerprint, true))
  {
    HistoireFidele(m, run);
    var a := Parcourir(m, run);
    if c.portee.Machine? || c.home {
      assert RapportDe(c.portee, c.policy, Lu(a.etat, c), c.appl, c.erreurs).modules[i]
          == OutcomeDe(c.portee, c.policy.modules[i], Lu(a.etat, c), c.appl, c.erreurs);
    }
  }

  /** When the state of a cycle is not saved, the history stays faithful exactly if every module executed is
      unrecorded, or recorded under the fingerprint it has just succeeded with (which takes a state that could
      not be read): cycle.go:177-182 takes the loss for harmless extra work, and it is not when a module was
      executed under another fingerprint than the one recorded. */
  lemma SauvegardeManquee(m: Monde, c: Pas)
    requires c.Cycle? && PasValide(c) && !c.sauve && Fidele(m)
    ensures Fidele(Avancer(m, c)) <==>
            forall i | 0 <= i < |c.policy.modules| && Execute1(c, c.policy.modules[i], Lu(m.etat, c)) ::
              var mod := c.policy.modules[i];
              m.etat.Some? && mod.stateKey in m.etat.value.modules ==>
                m.etat.value.modules[mod.stateKey] == mod.fingerprint && c.appl(mod).value.verdict == Reussi
  {
    hide Enregistre;
    var n := Avancer(m, c);
    var ms := c.policy.modules;
    if m.etat.Some? {
      forall k | k in m.etat.value.modules
        ensures k in n.dernier
        ensures k !in ClesDe(ms) || !Execute1(c, ms[Rang(ms, k)], Lu(m.etat, c)) ==> n.dernier[k] == m.dernier[k]
        ensures k in ClesDe(ms) && Execute1(c, ms[Rang(ms, k)], Lu(m.etat, c)) ==>
                  var mod := ms[Rang(ms, k)];
                  n.dernier[k] == Tentative(mod.fingerprint, c.appl(mod).value.verdict == Reussi)
      {
        DernieresEn(c, ms, Lu(m.etat, c), m.dernier, k);
      }
      forall i | 0 <= i < |ms| { RangUnique(ms, i); }
    }
  }

  /** One module recorded under "1", executed under "2", and the state not saved: the record tells "1". */
  lemma SauvegardeManqueeExemple() returns (m: Monde, c: Pas)
    ensures c.Cycle? && PasValide(c) && !c.sauve && c.lu && Fidele(m) && !Fidele(Avancer(m, c))
  {
    var mod := Module("motd", 1, "motd:-", "2", "enforce", "");
    var e := EtatScope("1", 1, "applied", map["motd:-" := "1"], map[], map[], map[], VERSION_INVENTAIRE);
    m := Monde(Some(e), map["motd:-" := Tentative("1", true)], []);
    c := Cycle(Machine, Policy(2, "2", [mod]), (x: Module) => Some(Execution([], Reussi)), {}, true, true, false);
    assert Execute1(c, c.policy.modules[0], m.etat);
    SauvegardeManquee(m, c);
  }

  // --- the methods ------------------------------------------------------------------

  /** What the server answers to a request for the policy. */
  datatype Reponse = Recue(policy: Policy) | Inchangee | Refusee

  /** `runCycle`: nothing moves unless a policy was received. */
  method RunCycle(depot: Depot, portee: Portee, reponse: Reponse, appl: Appliqueurs, erreurs: set<Cle>, home: bool,
                  inv: Inventaire, disque: Disque)
    returns (report: Option<Report>, ghost avant: Option<EtatScope>, ghost pas: Pas)
    requires inv.Valid() && (reponse.Recue? ==> ClesDistinctes(reponse.policy.modules))
    modifies depot, inv, disque
    ensures inv.Valid() && depot.incidents >= old(depot.incidents)
    ensures AutresPortees(old(depot.enregistre), depot.enregistre, portee)
    ensures reponse.Recue? ==>
              && pas.Cycle? && pas == Cycle(portee, reponse.policy, appl, erreurs, home, pas.lu, pas.sauve)
              && avant == Lu(EtatDe(old(depot.enregistre), portee), pas)
              && report == Some(Rapport(portee, home, reponse.policy, avant, appl, erreurs))
              && EtatDe(depot.enregistre, portee) == EtatSuivant(EtatDe(old(depot.enregistre), portee), pas)
              && (!pas.sauve ==> depot.enregistre == old(depot.enregistre))
    ensures reponse.Recue? && depot.incidents == old(depot.incidents) ==>
              && pas.lu && pas.sauve
              && depot.enregistre == old(depot.enregistre)[portee := Enregistre(portee, home, reponse.policy, avant,
                  appl, erreurs)]
    ensures reponse.Recue? && (portee.Machine? || home) ==>
              disque.noeuds == Jouer(old(disque.noeuds), GestesCumules(reponse.policy.modules, avant, appl, erreurs))
    ensures reponse.Recue? && !(portee.Machine? || home) ==> disque.noeuds == old(disque.noeuds)
    ensures !reponse.Recue? ==>
              && report.None? && depot.incidents == old(depot.incidents)
              && depot.enregistre == old(depot.enregistre) && disque.noeuds == old(disque.noeuds)
  {
    hide RapportPour, EtatConstruit, RapportDe, GestesCumules, Jouer, ToutEnEchec, ClesDistinctes;
    report, avant, pas := None, None, Perte;
    if !reponse.Recue? { return; }
    var p := reponse.policy;
    var lu := depot.LoadState();
    var previous := EtatDe(lu, portee);
    ghost var lisible := depot.incidents == old(depot.incidents);
    var r := ApplyPolicy(portee, p, previous, appl, erreurs, home, inv, disque);
    RapportBienForme(portee, home, p, previous, appl, erreurs);
    var e := BuildScopeState(p, previous, r);
    var s := new ScopeState(e);
    var ok := depot.SaveScopeState(portee, s);
    report, avant, pas := Some(r), previous, Cycle(portee, p, appl, erreurs, home, lisible, ok);
  }

  /** `scanMachineDrift`: the scan, then the forgetting. */
  method ScanMachineDrift(depot: Depot, v: Verificateurs, disque: Disque)
    returns (corriges: nat, ghost pas: Pas)
    modifies depot
    ensures depot.incidents >= old(depot.incidents)
    ensures AutresPortees(old(depot.enregistre), depot.enregistre, Machine)
    ensures pas.Ecarts? && EtatDe(depot.enregistre, Machine) == EtatSuivant(EtatDe(old(depot.enregistre), Machine), pas)
    ensures pas.sauve ==> Machine in old(depot.enregistre)
                          && pas.items == Scan(old(depot.enregistre)[Machine], disque.noeuds, v)
    ensures pas.sauve <==> corriges > 0
    ensures corriges == 0 ==> depot.enregistre == old(depot.enregistre)
    ensures depot.incidents == old(depot.incidents) && Machine in old(depot.enregistre) ==>
              var e := old(depot.enregistre)[Machine];
              depot.enregistre == old(depot.enregistre)[Machine := ApresEcarts(e, Scan(e, disque.noeuds, v))]
  {
    hide Scan, ApresEcarts;
    var lu := depot.LoadState();
    var report := new DriftReport();
    pas := Ecarts([], false);
    if Machine !in lu { return 0, pas; }
    report.ScanFromState(lu[Machine], disque.noeuds, v);
    assert report.items == Scan(lu[Machine], disque.noeuds, v);
    SansInventaire(lu[Machine], disque.noeuds, v);
    report.MarquerLesNonCorriges(lu[Machine]);
    MarquesEgaux(lu[Machine], Scan(lu[Machine], disque.noeuds, v), report.items);
    if report.checked == 0 { return 0, pas; }
    corriges := EnforceDrift(depot, Machine, report);
    pas := Ecarts(Scan(lu[Machine], disque.noeuds, v), corriges > 0);
  }
}
