/** Deciding what to apply, and what to remember of it (apply.go). */
module Application {
  import opened Options
  import opened Cles
  import opened Inventaires
  import opened Proprietes
  import opened Disques
  import opened Etat

  datatype Resultat = Applied | Unchanged | Skipped | Failed
  datatype Statut = StatutApplied | StatutPartial | StatutFailed

  datatype ModuleOutcome = ModuleOutcome(
    stateKey: Cle,
    resultat: Resultat,
    files: map<Chemin, FileState>,
    checks: map<string, SystemCheck>)

  datatype Report = Report(fingerprint: string, statut: Statut, modules: seq<ModuleOutcome>)

  /** What running an applier comes to: what it did through the funnel, and how it ended. */
  datatype Verdict = Reussi | NonApplicable | Echoue
  datatype Execution = Execution(gestes: seq<Geste>, verdict: Verdict)

  /** What the applier of each module would do this time; None for a type this agent does not know. */
  type Appliqueurs = Module -> Option<Execution>

  // --- applying a policy --------------------------------------------------------

  predicate DejaPose(m: Module, avant: Option<EtatScope>) {
    avant.Some? && m.stateKey in avant.value.modules && avant.value.modules[m.stateKey] == m.fingerprint
  }

  /** Whether this module's applier is called: not refused by its markers, not already in place under
      this fingerprint, and of a known type. */
  predicate Execute(m: Module, avant: Option<EtatScope>, appl: Appliqueurs, erreurs: set<Cle>) {
    m.stateKey !in erreurs && !DejaPose(m, avant) && appl(m).Some?
  }

  function GestesDe(m: Module, avant: Option<EtatScope>, appl: Appliqueurs, erreurs: set<Cle>): seq<Geste> {
    if Execute(m, avant, appl, erreurs) then appl(m).value.gestes else []
  }

  /** The expectations a module declares without being replayed (`declarerAttentes`). */
  function AttentesDeclarees(m: Module): seq<Geste> {
    if m.genre == SSH_SERVER_CONFIG && m.directives != ""
    then [Attendre(Attente(CHECK_SSH_EFFECTIF, "sshd", m.directives))]
    else []
  }

  function Rattrapage(portee: Portee, m: Module, avant: Option<EtatScope>, erreurs: set<Cle>): seq<Geste> {
    if portee.Machine? && m.stateKey !in erreurs && DejaPose(m, avant) &&
        ManqueAttente(avant.value, m.genre, m.stateKey)
    then AttentesDeclarees(m) else []
  }

  ghost function OutcomeDe(portee: Portee, m: Module, avant: Option<EtatScope>, appl: Appliqueurs,
      erreurs: set<Cle>): ModuleOutcome {
    if m.stateKey in erreurs then ModuleOutcome(m.stateKey, Failed, map[], map[])
    else if DejaPose(m, avant) then
      ModuleOutcome(m.stateKey, Unchanged, map[], Attribuer(PlierAttentes(Rattrapage(portee, m, avant, erreurs)),
          m.stateKey))
    else match appl(m)
      case None => ModuleOutcome(m.stateKey, Skipped, map[], map[])
      case Some(Execution(g, NonApplicable)) => ModuleOutcome(m.stateKey, Skipped, map[], map[])
      case Some(Execution(g, Echoue)) => ModuleOutcome(m.stateKey, Failed, map[], map[])
      case Some(Execution(g, Reussi)) =>
        ModuleOutcome(m.stateKey, Applied, Attribuer(PlierFichiers(g), m.stateKey), Attribuer(PlierAttentes(g),
            m.stateKey))
  }

  /** Every funnel operation of the cycle, in policy order. */
  function GestesCumules(ms: seq<Module>, avant: Option<EtatScope>, appl: Appliqueurs, erreurs: set<Cle>): seq<Geste> {
    if ms == [] then []
    else GestesCumules(ms[..|ms| - 1], avant, appl, erreurs) + GestesDe(ms[|ms| - 1], avant, appl, erreurs)
  }

  /** Every operation of every applier that is called reaches the disk in turn, however the applier ends: not refused
      by its markers, not recorded under this fingerprint, of a known type. */
  lemma GestesDeTous(ms: seq<Module>, avant: Option<EtatScope>, appl: Appliqueurs, erreurs: set<Cle>, i: nat)
    requires i < |ms|
    ensures var m := ms[i];
            var pose := avant.Some? && m.stateKey in avant.value.modules
                        && avant.value.modules[m.stateKey] == m.fingerprint;
            GestesCumules(ms[..i + 1], avant, appl, erreurs)
            == GestesCumules(ms[..i], avant, appl, erreurs)
               + (if m.stateKey in erreurs || pose then []
                  else match appl(m) case None => [] case Some(x) => x.gestes)
  {
    assert ms[..i + 1][..i] == ms[..i] && ms[..i + 1][i] == ms[i];
  }

  /** What a module already in place declares without being replayed: in the machine's scope, one that has to own the
      effective configuration of sshd and owns none gets it, if it fixes some directive; nothing otherwise. */
  lemma RattrapageDit(portee: Portee, m: Module, avant: Option<EtatScope>, appl: Appliqueurs, erreurs: set<Cle>)
    requires m.stateKey !in erreurs && DejaPose(m, avant)
    ensures var o := OutcomeDe(portee, m, avant, appl, erreurs);
            && o.resultat == Unchanged && o.files == map[]
            && o.checks ==
               if portee.Machine? && m.genre == "ssh_server_config" && m.directives != ""
                  && forall id | id in avant.value.checks && avant.value.checks[id].objet.kind == "sshd_effectif" ::
                       m.stateKey !in ListeProprietaires(avant.value.checks[id])
               then map["sshd_effectif" + "|" + "sshd" :=
                          Suivi(Attente("sshd_effectif", "sshd", m.directives), m.stateKey, [])]
               else map[]
  {
    SansInscription(m.stateKey);
    var a := Attente("sshd_effectif", "sshd", m.directives);
    PlierUne(Attendre(a), m.stateKey);
  }

  lemma PlierUne(g: Geste, cle: Cle)
    requires g.Attendre?
    ensures Attribuer(PlierAttentes([g]), cle) == map[CheckID(g.attente) := Suivi(g.attente, cle, [])]
  {
    var l := LignesAttentes([g]);
    assert l == [] + [Inscription(CheckID(g.attente), g.attente)] && l[..0] == [];
    assert Plier(l) == Plier([])[CheckID(g.attente) := g.attente];
  }

  ghost function OutcomesDe(portee: Portee, ms: seq<Module>, avant: Option<EtatScope>, appl: Appliqueurs,
      erreurs: set<Cle>): seq<ModuleOutcome> {
    seq(|ms|, i requires 0 <= i < |ms| => OutcomeDe(portee, ms[i], avant, appl, erreurs))
  }

  /** Applied when nothing failed (a skip is not a failure), failed when everything did. */
  ghost function StatutDe(outs: seq<ModuleOutcome>): Statut {
    if forall i | 0 <= i < |outs| :: outs[i].resultat != Failed then StatutApplied
    else if exists i :: 0 <= i < |outs| && outs[i].resultat != Failed then StatutPartial
    else StatutFailed
  }

  ghost function RapportDe(portee: Portee, p: Policy, avant: Option<EtatScope>, appl: Appliqueurs,
      erreurs: set<Cle>): Report {
    var outs := OutcomesDe(portee, p.modules, avant, appl, erreurs);
    Report(p.fingerprint, StatutDe(outs), outs)
  }

  method RattraperAttente(portee: Portee, m: Module, inv: Inventaire, invMachine: Inventaire, disque: Disque)
    returns (checks: map<string, SystemCheck>)
    requires inv.Valid() && invMachine.Valid() && (portee.Machine? <==> inv == invMachine)
    modifies inv, invMachine, disque
    ensures inv.Valid() && invMachine.Valid() && disque.noeuds == old(disque.noeuds)
    ensures checks == Attribuer(PlierAttentes(if portee.Machine? then AttentesDeclarees(m) else []), m.stateKey)
  {
    var marque := inv.Marque();
    disque.Executer(AttentesDeclarees(m), invMachine);
    AttentesSansEffet(old(disque.noeuds), m);
    assert inv.journal[marque..] == if portee.Machine? then AttentesDeclarees(m) else [];
    checks := inv.AttentesDepuis(marque, m.stateKey);
  }

  lemma SansInscription(cle: Cle)
    ensures Attribuer(PlierAttentes([]), cle) == map[] && Attribuer(PlierFichiers([]), cle) == map[]
  {
  }

  lemma AttentesSansEffet(d: Contenu, m: Module)
    ensures Jouer(d, AttentesDeclarees(m)) == d
  {
    var g := AttentesDeclarees(m);
    if g != [] { assert g[..|g| - 1] == []; }
  }

  /** `applyModule`.  `inv` is the inventory of this cycle; expectations caught up without replaying go
      to the machine's inventory whatever the scope (verifiers_sshd.go:169-176). */
  method ApplyModule(portee: Portee, m: Module, avant: Option<EtatScope>, appl: Appliqueurs,
                     inv: Inventaire, invMachine: Inventaire, disque: Disque)
    returns (outcome: ModuleOutcome)
    requires inv.Valid() && invMachine.Valid() && (portee.Machine? <==> inv == invMachine)
    modifies inv, invMachine, disque
    ensures inv.Valid() && invMachine.Valid()
    ensures outcome == OutcomeDe(portee, m, avant, appl, {})
    ensures disque.noeuds == Jouer(old(disque.noeuds), GestesDe(m, avant, appl, {}))
  {
    if DejaPose(m, avant) {
      SansInscription(m.stateKey);
      outcome := ModuleOutcome(m.stateKey, Unchanged, map[], map[]);
      if ManqueAttente(avant.value, m.genre, m.stateKey) {
        var checks := RattraperAttente(portee, m, inv, invMachine, disque);
        outcome := ModuleOutcome(m.stateKey, Unchanged, map[], checks);
      }
      return;
    }
    if appl(m).None? { return ModuleOutcome(m.stateKey, Skipped, map[], map[]); }
    var marque := inv.Marque();
    var e := appl(m).value;
    disque.Executer(e.gestes, inv);
    match e.verdict
    case NonApplicable => outcome := ModuleOutcome(m.stateKey, Skipped, map[], map[]);
    case Echoue => outcome := ModuleOutcome(m.stateKey, Failed, map[], map[]);
    case Reussi =>
      assert inv.journal[marque..] == e.gestes;
      var files := inv.FichiersDepuis(marque, m.stateKey);
      var checks := inv.AttentesDepuis(marque, m.stateKey);
      outcome := ModuleOutcome(m.stateKey, Applied, files, checks);
  }

  /** `inventairePour`: the machine's inventory emptied, or a fresh one for an account. */
  method InventairePour(portee: Portee, invMachine: Inventaire) returns (inv: Inventaire)
    requires invMachine.Valid()
    modifies invMachine
    ensures inv.Valid() && invMachine.Valid() && inv.journal == []
    ensures if portee.Machine? then inv == invMachine else fresh(inv) && invMachine.journal == old(invMachine.journal)
  {
    if portee.Compte? {
      inv := new Inventaire();
      return;
    }
    invMachine.Vider();
    inv := invMachine;
  }

  ghost function ToutEnEchec(ms: seq<Module>): seq<ModuleOutcome> {
    seq(|ms|, i requires 0 <= i < |ms| => ModuleOutcome(ms[i].stateKey, Failed, map[], map[]))
  }

  /** `ApplyPolicy`: `erreurs` are the modules whose markers could not be expanded; `home` is whether the
      account's home directory was found. */
  method ApplyPolicy(portee: Portee, p: Policy, avant: Option<EtatScope>, appl: Appliqueurs, erreurs: set<Cle>,
                     home: bool, invMachine: Inventaire, disque: Disque)
    returns (report: Report)
    requires invMachine.Valid()
    modifies invMachine, disque
    ensures invMachine.Valid()
    ensures portee.Machine? || home ==>
              && report == RapportDe(portee, p, avant, appl, erreurs)
              && disque.noeuds == Jouer(old(disque.noeuds), GestesCumules(p.modules, avant, appl, erreurs))
    ensures !(portee.Machine? || home) ==>
              && report == Report(p.fingerprint, StatutFailed, ToutEnEchec(p.modules))
              && disque.noeuds == old(disque.noeuds)
  {
    if portee.Compte? && !home {
      var outs := Refuser(p.modules);
      return Report(p.fingerprint, StatutFailed, outs);
    }
    var inv := InventairePour(portee, invMachine);
    var outs, applied, failed := AppliquerModules(portee, p.modules, avant, appl, erreurs, inv, invMachine, disque);
    var statut := if failed == 0 then StatutApplied
                  else if applied > 0 || failed < |p.modules| then StatutPartial
                  else StatutFailed;
    StatutParComptage(outs);
    return Report(p.fingerprint, statut, outs);
  }

  method Refuser(ms: seq<Module>) returns (outs: seq<ModuleOutcome>)
    ensures outs == ToutEnEchec(ms)
  {
    outs := [];
    for i := 0 to |ms|
      invariant outs == ToutEnEchec(ms[..i])
    {
      outs := outs + [ModuleOutcome(ms[i].stateKey, Failed, map[], map[])];
    }
    assert ms[..|ms|] == ms;
  }

  method UnModule(portee: Portee, m: Module, avant: Option<EtatScope>, appl: Appliqueurs, erreurs: set<Cle>,
                  inv: Inventaire, invMachine: Inventaire, disque: Disque)
    returns (outcome: ModuleOutcome)
    requires inv.Valid() && invMachine.Valid() && (portee.Machine? <==> inv == invMachine)
    modifies inv, invMachine, disque
    ensures inv.Valid() && invMachine.Valid()
    ensures outcome == OutcomeDe(portee, m, avant, appl, erreurs)
    ensures disque.noeuds == Jouer(old(disque.noeuds), GestesDe(m, avant, appl, erreurs))
  {
    if m.stateKey in erreurs {
      outcome := ModuleOutcome(m.stateKey, Failed, map[], map[]);
    } else {
      outcome := ApplyModule(portee, m, avant, appl, inv, invMachine, disque);
    }
  }

  method AppliquerModules(portee: Portee, ms: seq<Module>, avant: Option<EtatScope>, appl: Appliqueurs,
      erreurs: set<Cle>,
                          inv: Inventaire, invMachine: Inventaire, disque: Disque)
    returns (outs: seq<ModuleOutcome>, applied: nat, failed: nat)
    requires inv.Valid() && invMachine.Valid() && (portee.Machine? <==> inv == invMachine)
    modifies inv, invMachine, disque
    ensures inv.Valid() && invMachine.Valid()
    ensures outs == OutcomesDe(portee, ms, avant, appl, erreurs)
    ensures disque.noeuds == Jouer(old(disque.noeuds), GestesCumules(ms, avant, appl, erreurs))
    ensures applied == Combien(outs, Applied) && failed == Combien(outs, Failed)
  {
    hide Combien;
    outs, applied, failed := [], 0, 0;
    CombienVide();
    for i := 0 to |ms|
      invariant inv.Valid() && invMachine.Valid()
      invariant outs == OutcomesDe(portee, ms[..i], avant, appl, erreurs)
      invariant disque.noeuds == Jouer(old(disque.noeuds), GestesCumules(ms[..i], avant, appl, erreurs))
      invariant applied == Combien(outs, Applied) && failed == Combien(outs, Failed)
    {
      var outcome := UnModule(portee, ms[i], avant, appl, erreurs, inv, invMachine, disque);
      ModuleSuivant(portee, ms, i, avant, appl, erreurs, old(disque.noeuds));
      CombienSuivant(outs, outcome);
      outs := outs + [outcome];
      if outcome.resultat == Applied {
        applied := applied + 1;
      } else if outcome.resultat == Failed {
        failed := failed + 1;
      }
    }
    assert ms[..|ms|] == ms;
  }

  ghost function Combien(outs: seq<ModuleOutcome>, r: Resultat): nat {
    if outs == [] then 0
    else Combien(outs[..|outs| - 1], r) + (if outs[|outs| - 1].resultat == r then 1 else 0)
  }

  lemma CombienVide()
    ensures forall r :: Combien([], r) == 0
  {
  }

  lemma CombienSuivant(outs: seq<ModuleOutcome>, o: ModuleOutcome)
    ensures forall r :: Combien(outs + [o], r) == Combien(outs, r) + (if o.resultat == r then 1 else 0)
  {
    assert (outs + [o])[..|outs|] == outs;
  }

  lemma {:induction false} ComptageExact(outs: seq<ModuleOutcome>)
    ensures Combien(outs, Failed) == 0 <==> forall i | 0 <= i < |outs| :: outs[i].resultat != Failed
    ensures Combien(outs, Failed) == |outs| <==> forall i | 0 <= i < |outs| :: outs[i].resultat == Failed
    ensures Combien(outs, Applied) + Combien(outs, Failed) <= |outs|
  {
    if outs != [] {
      var reste := outs[..|outs| - 1];
      ComptageExact(reste);
      assert outs == reste + [outs[|outs| - 1]];
      assert forall i | 0 <= i < |reste| :: reste[i] == outs[i];
    }
  }

  /** The counters of `ApplyPolicy` decide the status that the outcomes have. */
  lemma StatutParComptage(outs: seq<ModuleOutcome>)
    ensures StatutDe(outs) ==
            if Combien(outs, Failed) == 0 then StatutApplied
            else if Combien(outs, Applied) > 0 || Combien(outs, Failed) < |outs| then StatutPartial
            else StatutFailed
  {
    ComptageExact(outs);
  }

  lemma ModuleSuivant(portee: Portee, ms: seq<Module>, i: nat, avant: Option<EtatScope>, appl: Appliqueurs,
      erreurs: set<Cle>, d: Contenu)
    requires i < |ms|
    ensures OutcomesDe(portee, ms[..i + 1], avant, appl, erreurs) ==
            OutcomesDe(portee, ms[..i], avant, appl, erreurs) + [OutcomeDe(portee, ms[i], avant, appl, erreurs)]
    ensures Jouer(d, GestesCumules(ms[..i + 1], avant, appl, erreurs)) ==
            Jouer(Jouer(d, GestesCumules(ms[..i], avant, appl, erreurs)), GestesDe(ms[i], avant, appl, erreurs))
  {
    assert ms[..i + 1][..i] == ms[..i] && ms[..i + 1][i] == ms[i];
    JouerConcat(d, GestesCumules(ms[..i], avant, appl, erreurs), GestesDe(ms[i], avant, appl, erreurs));
  }
}
