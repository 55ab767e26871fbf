/** `BuildScopeState` (apply.go:361-546): what is remembered after an application. */
module Construction {
  import opened Options
  import opened Cles
  import opened Proprietes
  import opened Inventaires
  import opened Etat
  import opened Fermeture
  import opened Application

  ghost function ApportsFichiers(outs: seq<ModuleOutcome>): seq<Apport<VouluFichier>> {
    seq(|outs|, i requires 0 <= i < |outs| => Apport(outs[i].stateKey, outs[i].resultat == Applied, outs[i].files))
  }

  ghost function ApportsAttentes(outs: seq<ModuleOutcome>): seq<Apport<Attente>> {
    seq(|outs|, i requires 0 <= i < |outs| => Apport(outs[i].stateKey, outs[i].resultat == Applied, outs[i].checks))
  }

  predicate Reconduit(o: ModuleOutcome) { o.resultat == Applied || o.resultat == Unchanged }

  /** One outcome per module of the policy, in order, each naming only what its module brought. */
  ghost predicate RapportPour(ms: seq<Module>, outs: seq<ModuleOutcome>) {
    && ClesDistinctes(ms)
    && |outs| == |ms|
    && (forall i | 0 <= i < |ms| :: outs[i].stateKey == ms[i].stateKey)
    && (forall i | 0 <= i < |ms| && outs[i].resultat != Applied :: outs[i].files == map[])
    && (forall i | 0 <= i < |ms| && !Reconduit(outs[i]) :: outs[i].checks == map[])
    && ApportsValides(ApportsFichiers(outs))
    && ApportsValides(ApportsAttentes(outs))
  }

  ghost function Rang(ms: seq<Module>, k: Cle): (i: nat)
    requires k in ClesDe(ms)
    ensures i < |ms| && ms[i].stateKey == k
  {
    var i :| 0 <= i < |ms| && ms[i].stateKey == k;
    i
  }

  /** Fingerprints once the first `n` outcomes are handled. */
  ghost function ModulesA(avant: map<Cle, string>, ms: seq<Module>, outs: seq<ModuleOutcome>, n: nat)
    : map<Cle, string>
    requires |outs| == |ms|
  {
    Tableau(set k | k in ClesDe(ms) && if Rang(ms, k) < n then Reconduit(outs[Rang(ms, k)]) else k in avant,
            (k: Cle) requires k in ClesDe(ms) && (Rang(ms, k) < n || k in avant) =>
              if Rang(ms, k) < n then ms[Rang(ms, k)].fingerprint else avant[k])
  }

  ghost function FichiersAvant(avant: Option<EtatScope>): map<Chemin, FileState> {
    if avant.Some? then avant.value.files else map[]
  }

  ghost function AttentesAvant(avant: Option<EtatScope>): map<string, SystemCheck> {
    if avant.Some? then avant.value.checks else map[]
  }

  /** Exactly the modules applied or unchanged, each under the fingerprint of the policy. */
  ghost function ModulesRetenus(ms: seq<Module>, outs: seq<ModuleOutcome>): map<Cle, string>
    requires ClesDistinctes(ms) && |outs| == |ms|
  {
    Tableau(set k | k in ClesDe(ms) && Reconduit(outs[Rang(ms, k)]),
            (k: Cle) requires k in ClesDe(ms) => ms[Rang(ms, k)].fingerprint)
  }

  /** The modes the current policy gives: enforce, the default, is not written. */
  ghost function ModesDe(ms: seq<Module>): map<Cle, string>
  {
    Tableau(set k | k in ClesDe(ms) && Mode(ms[Rang(ms, k)]) != Enforce,
            (k: Cle) requires k in ClesDe(ms) => Texto(Mode(ms[Rang(ms, k)])))
  }

  function StatutTexte(s: Statut): string {
    match s
    case StatutApplied => "applied"
    case StatutPartial => "partial"
    case StatutFailed => "failed"
  }

  lemma ModeAudit(e: EtatScope, p: Policy, i: nat)
    requires ClesDistinctes(p.modules) && i < |p.modules| && e.modes == ModesDe(p.modules)
    ensures ModuleMode(e, p.modules[i].stateKey) == Mode(p.modules[i])
  {
    RangUnique(p.modules, i);
  }

  /** The recorded state, in closed form: nothing here depends on the order of any loop. */
  ghost function EtatConstruit(p: Policy, avant: Option<EtatScope>, report: Report): EtatScope
    requires RapportPour(p.modules, report.modules)
  {
    EtatScope(
      if report.statut == StatutApplied then p.fingerprint else if avant.Some? then avant.value.fingerprint else "",
      p.version,
      StatutTexte(report.statut),
      ModulesRetenus(p.modules, report.modules),
      FormeClose(FichiersAvant(avant), ClesDe(p.modules), ApportsFichiers(report.modules)),
      FormeClose(AttentesAvant(avant), ClesDe(p.modules), ApportsAttentes(report.modules)),
      ModesDe(p.modules),
      VERSION_INVENTAIRE)
  }

  /** What the record says beside its maps: the status the outcomes deserve, the current inventory rule, and the mode of
      the modules in audit, the only ones whose mode is written. */
  lemma EtatDit(p: Policy, avant: Option<EtatScope>, report: Report)
    requires RapportPour(p.modules, report.modules) && report.statut == StatutDe(report.modules)
    ensures var e, o := EtatConstruit(p, avant, report), report.modules;
            && (e.status == "applied" <==> forall i | 0 <= i < |o| :: o[i].resultat != Failed)
            && (e.status == "partial" <==> (exists i :: 0 <= i < |o| && o[i].resultat == Failed)
                                           && exists i :: 0 <= i < |o| && o[i].resultat != Failed)
            && (e.status == "failed" <==> o != [] && forall i | 0 <= i < |o| :: o[i].resultat == Failed)
            && e.version == p.version && e.inventaire == 2
            && (forall k | k in e.modes :: e.modes[k] == "audit")
            && forall i | 0 <= i < |p.modules| :: p.modules[i].stateKey in e.modes <==> Mode(p.modules[i]) == Audit
  {
    hide *;
    RapportLu(p, avant, report);
    StatutDit(report.modules);
    ModesDits(p.modules);
  }

  lemma RapportLu(p: Policy, avant: Option<EtatScope>, report: Report)
    requires RapportPour(p.modules, report.modules)
    ensures ClesDistinctes(p.modules)
    ensures var e := EtatConstruit(p, avant, report);
            && e.status == StatutTexte(report.statut) && e.version == p.version && e.modes == ModesDe(p.modules)
            && e.inventaire == 2
  {
    hide FormeClose, ModulesRetenus, ModesDe, ApportsFichiers, ApportsAttentes, StatutTexte;
  }

  lemma StatutDit(o: seq<ModuleOutcome>)
    ensures var t := StatutTexte(StatutDe(o));
            && (t == "applied" <==> forall i | 0 <= i < |o| :: o[i].resultat != Failed)
            && (t == "partial" <==> (exists i :: 0 <= i < |o| && o[i].resultat == Failed)
                                    && exists i :: 0 <= i < |o| && o[i].resultat != Failed)
            && (t == "failed" <==> o != [] && forall i | 0 <= i < |o| :: o[i].resultat == Failed)
  {
    assert o != [] ==> o[0].resultat == Failed || o[0].resultat != Failed;
    assert "applied"[0] == 'a' && "partial"[0] == 'p' && "failed"[0] == 'f';
  }

  lemma ModesDits(ms: seq<Module>)
    requires ClesDistinctes(ms)
    ensures forall k | k in ModesDe(ms) :: ModesDe(ms)[k] == "audit"
    ensures forall i | 0 <= i < |ms| :: ms[i].stateKey in ModesDe(ms) <==> Mode(ms[i]) == Audit
  {
    hide Mode;
    forall i | 0 <= i < |ms| { RangUnique(ms, i); }
  }

  lemma RangUnique(ms: seq<Module>, i: nat)
    requires ClesDistinctes(ms) && i < |ms|
    ensures ms[i].stateKey in ClesDe(ms) && Rang(ms, ms[i].stateKey) == i
  {
  }

  lemma RetenuEn(ms: seq<Module>, outs: seq<ModuleOutcome>, i: nat)
    requires ClesDistinctes(ms) && |outs| == |ms| && i < |ms|
    ensures ms[i].stateKey in ModulesRetenus(ms, outs) <==> Reconduit(outs[i])
    ensures Reconduit(outs[i]) ==> ModulesRetenus(ms, outs)[ms[i].stateKey] == ms[i].fingerprint
  {
  }

  lemma ModulesInitiaux(avant: map<Cle, string>, ms: seq<Module>, outs: seq<ModuleOutcome>)
    requires |outs| == |ms|
    ensures ModulesA(avant, ms, outs, 0) == avant - (avant.Keys - ClesDe(ms))
  {
  }

  lemma ModulesFinaux(avant: map<Cle, string>, ms: seq<Module>, outs: seq<ModuleOutcome>)
    requires ClesDistinctes(ms) && |outs| == |ms|
    ensures ModulesA(avant, ms, outs, |ms|) == ModulesRetenus(ms, outs)
  {
    hide Reconduit;
    MapsEgales(ModulesA(avant, ms, outs, |ms|), ModulesRetenus(ms, outs));
  }

  lemma ModulesSuivants(avant: map<Cle, string>, ms: seq<Module>, outs: seq<ModuleOutcome>, n: nat)
    requires ClesDistinctes(ms) && |outs| == |ms| && n < |ms|
    ensures var k := ms[n].stateKey;
            ModulesA(avant, ms, outs, n + 1) ==
            if Reconduit(outs[n]) then ModulesA(avant, ms, outs, n)[k := ms[n].fingerprint]
            else ModulesA(avant, ms, outs, n) - {k}
  {
    hide Rang, ClesDe, Reconduit;
    var k := ms[n].stateKey;
    RangUnique(ms, n);
    CleDe(ms, n);
    var a, b := ModulesA(avant, ms, outs, n), ModulesA(avant, ms, outs, n + 1);
    var r := if Reconduit(outs[n]) then a[k := ms[n].fingerprint] else a - {k};
    forall x | x in ClesDe(ms) && x != k ensures Rang(ms, x) < n + 1 <==> Rang(ms, x) < n {
      RangDe(ms, x);
    }
    MapsEgales(b, r);
  }

  lemma CleDe(ms: seq<Module>, n: nat)
    requires n < |ms|
    ensures ms[n].stateKey in ClesDe(ms)
  {
  }

  lemma RangDe(ms: seq<Module>, x: Cle)
    requires x in ClesDe(ms)
    ensures 0 <= Rang(ms, x) < |ms| && ms[Rang(ms, x)].stateKey == x
  {
  }

  // --- the loops over the maps --------------------------------------------------

  /** Owners that left the policy leave their entries; an entry goes with its last owner. */
  method PurgerMap<T>(m: map<string, Suivi<T>>, garde: set<Cle>) returns (r: map<string, Suivi<T>>)
    requires "" !in garde
    ensures r == FormeClose(m, garde, [])
  {
    r := m;
    var reste := m.Keys;
    while reste != {}
      invariant reste <= m.Keys
      invariant forall p :: p in r <==> p in m && (p in reste || Proprietaires(m[p]) * garde != {})
      invariant forall p | p in r :: r[p] == if p in reste then m[p] else Pose(m[p], Proprietaires(m[p]) * garde)
    {
      var p :| p in reste;
      var epure, garder := GarderProprietaires(m[p], garde);
      reste := reste - {p};
      r := if garder then r[p := epure] else r - {p};
    }
    PurgeFermee(m, garde, r);
  }

  lemma PurgeEn<T>(m: map<string, Suivi<T>>, garde: set<Cle>, p: string)
    requires "" !in garde
    ensures p in FormeClose(m, garde, []) <==> p in m && Proprietaires(m[p]) * garde != {}
    ensures p in FormeClose(m, garde, []) ==> FormeClose(m, garde, [])[p] == Pose(m[p], Proprietaires(m[p]) * garde)
  {
    var vide: seq<Apport<T>> := [];
    assert Remplaces(vide) == {} && Apporteurs(vide, p) == {};
    assert p in m ==> ProprietairesFinals(m, garde, vide, p) == Proprietaires(m[p]) * garde;
    ProprietairesVus(m, garde, vide, p);
  }

  lemma PurgeFermee<T>(m: map<string, Suivi<T>>, garde: set<Cle>, r: map<string, Suivi<T>>)
    requires "" !in garde
    requires forall p :: p in r <==> p in m && Proprietaires(m[p]) * garde != {}
    requires forall p | p in r :: r[p] == Pose(m[p], Proprietaires(m[p]) * garde)
    ensures r == FormeClose(m, garde, [])
  {
    var f := FormeClose(m, garde, []);
    forall p { PurgeEn(m, garde, p); }
    MapsEgales(f, r);
  }

  method GarderProprietaires<T>(f: Suivi<T>, garde: set<Cle>) returns (g: Suivi<T>, reste: bool)
    requires "" !in garde
    ensures reste <==> Proprietaires(f) * garde != {}
    ensures reste ==> g == Pose(f, Proprietaires(f) * garde)
  {
    var restants: seq<Cle> := [];
    var l := ListeProprietaires(f);
    for i := 0 to |l|
      invariant forall x :: x in restants <==> x in l[..i] && x in garde
    {
      assert l[..i + 1] == l[..i] + [l[i]];
      if l[i] in garde { restants := restants + [l[i]]; }
    }
    assert l[..|l|] == l;
    assert Elements(restants) - {""} == Proprietaires(f) * garde;
    g, reste := AvecProprietaires(f, restants);
  }

  method RetirerDeMap<T>(m: map<string, Suivi<T>>, cle: Cle) returns (r: map<string, Suivi<T>>)
    ensures r == SansCle(m, cle)
  {
    hide EnRetrait;
    r := m;
    var reste := m.Keys;
    assert EnRetrait(m, cle, reste, r) by { RetraitCommence(m, cle); }
    while reste != {}
      invariant reste <= m.Keys && EnRetrait(m, cle, reste, r)
    {
      var p :| p in reste;
      var epure, garder := SansProprietaire(m[p], cle);
      UnRetrait(m, cle, reste, r, p, epure);
      reste := reste - {p};
      r := if garder then r[p := epure] else r - {p};
    }
    RetraitFini(m, cle, r);
  }

  /** The entries of `reste` are still to be handled. */
  ghost predicate EnRetrait<T>(m: map<string, Suivi<T>>, cle: Cle, reste: set<string>, r: map<string, Suivi<T>>) {
    && (forall p :: p in r <==> p in m && (p in reste || Proprietaires(m[p]) - {cle} != {}))
    && forall p | p in r :: r[p] == if p in reste then m[p] else Pose(m[p], Proprietaires(m[p]) - {cle})
  }

  lemma RetraitCommence<T>(m: map<string, Suivi<T>>, cle: Cle)
    ensures EnRetrait(m, cle, m.Keys, m)
  {
  }

  lemma UnRetrait<T>(m: map<string, Suivi<T>>, cle: Cle, reste: set<string>, r: map<string, Suivi<T>>, p: string,
                     g: Suivi<T>)
    requires p in reste && reste <= m.Keys && EnRetrait(m, cle, reste, r)
    requires Proprietaires(m[p]) - {cle} != {} ==> g == Pose(m[p], Proprietaires(m[p]) - {cle})
    ensures EnRetrait(m, cle, reste - {p}, if Proprietaires(m[p]) - {cle} != {} then r[p := g] else r - {p})
  {
    hide Proprietaires, Pose;
  }

  lemma RetraitFini<T>(m: map<string, Suivi<T>>, cle: Cle, r: map<string, Suivi<T>>)
    requires EnRetrait(m, cle, {}, r)
    ensures r == SansCle(m, cle)
  {
    hide Proprietaires, Pose;
    SansCleUnique(m, cle, r);
  }

  lemma SansCleUnique<T>(m: map<string, Suivi<T>>, cle: Cle, r: map<string, Suivi<T>>)
    requires forall p :: p in r <==> p in m && Proprietaires(m[p]) - {cle} != {}
    requires forall p | p in r :: r[p] == Pose(m[p], Proprietaires(m[p]) - {cle})
    ensures r == SansCle(m, cle)
  {
  }

  /** Another module of the policy wrote the same thing: both answer for it, the last writer is shown. */
  method Partager<T>(deja: Suivi<T>, etat: Suivi<T>, cle: Cle) returns (r: Suivi<T>)
    requires cle != "" && etat.stateKey == cle
    ensures r == Pose(etat, Proprietaires(deja) + {cle})
  {
    var l := ListeProprietaires(deja) + [cle];
    assert Elements(l) - {""} == Proprietaires(deja) + {cle};
    var garde: bool;
    r, garde := AvecProprietaires(etat, l);
    r := Suivi(r.objet, cle, r.owners);
  }

  ghost function PoseEn<T>(m: map<string, Suivi<T>>, d: map<string, Suivi<T>>, cle: Cle, p: string): Suivi<T>
    requires p in m || p in d
  {
    if p !in d then m[p] else if p in m then Pose(d[p], Proprietaires(m[p]) + {cle}) else d[p]
  }

  method AjouterAMap<T>(m: map<string, Suivi<T>>, d: map<string, Suivi<T>>, cle: Cle) returns (r: map<string, Suivi<T>>)
    requires cle != "" && forall p | p in d :: d[p].stateKey == cle
    ensures r == AvecPose(m, d, cle)
  {
    r := m;
    var reste := d.Keys;
    while reste != {}
      invariant reste <= d.Keys
      invariant forall p :: p in r <==> p in m || (p in d && p !in reste)
      invariant forall p | p in r && p in reste :: r[p] == m[p]
      invariant forall p | p in r && p !in reste :: r[p] == PoseEn(m, d, cle, p)
    {
      var p :| p in reste;
      var etat := d[p];
      if p in r { etat := Partager(r[p], etat, cle); }
      r := r[p := etat];
      reste := reste - {p};
    }
    AvecPoseUnique(r, m, d, cle);
  }

  /** One outcome, on one of the two maps. */
  method Traiter<T>(m: map<string, Suivi<T>>, d: Apport<T>, ghost avant: map<string, Suivi<T>>, ghost garde: set<Cle>,
      ghost c: seq<Apport<T>>)
    returns (r: map<string, Suivi<T>>)
    requires ApportsValides(c + [d]) && ApportsValides(c) && "" !in garde && m == FormeClose(avant, garde, c)
    ensures r == FormeClose(avant, garde, c + [d])
  {
    assert (c + [d])[|c|] == d;
    r := m;
    if d.remplace { r := RetirerDeMap(r, d.cle); }
    EtapeFermee(avant, garde, c, d, r);
    r := AjouterAMap(r, d.pose, d.cle);
  }

  lemma ApportsPrefixes(outs: seq<ModuleOutcome>, i: nat)
    requires i < |outs| && ApportsValides(ApportsFichiers(outs)) && ApportsValides(ApportsAttentes(outs))
    ensures ApportsFichiers(outs[..i + 1]) ==
        ApportsFichiers(outs[..i]) + [Apport(outs[i].stateKey, outs[i].resultat == Applied, outs[i].files)]
    ensures ApportsAttentes(outs[..i + 1]) ==
        ApportsAttentes(outs[..i]) + [Apport(outs[i].stateKey, outs[i].resultat == Applied, outs[i].checks)]
    ensures ApportsValides(ApportsFichiers(outs[..i + 1])) && ApportsValides(ApportsAttentes(outs[..i + 1]))
    ensures ApportsValides(ApportsFichiers(outs[..i])) && ApportsValides(ApportsAttentes(outs[..i]))
  {
    assert ApportsFichiers(outs[..i + 1]) == ApportsFichiers(outs)[..i + 1];
    assert ApportsAttentes(outs[..i + 1]) == ApportsAttentes(outs)[..i + 1];
    assert ApportsFichiers(outs[..i]) == ApportsFichiers(outs)[..i];
    assert ApportsAttentes(outs[..i]) == ApportsAttentes(outs)[..i];
  }

  /** The loop over the outcomes. */
  method Derouler(ms: seq<Module>, outs: seq<ModuleOutcome>, byKey: map<Cle, Module>, m0: map<Cle, string>,
                  f0: map<Chemin, FileState>, c0: map<string, SystemCheck>,
                  ghost mav: map<Cle, string>, ghost fav: map<Chemin, FileState>, ghost cav: map<string, SystemCheck>)
    returns (modules: map<Cle, string>, files: map<Chemin, FileState>, checks: map<string, SystemCheck>)
    requires RapportPour(ms, outs) && byKey.Keys == ClesDe(ms) && "" !in byKey
    requires forall i | 0 <= i < |ms| :: byKey[ms[i].stateKey] == ms[i]
    requires m0 == ModulesA(mav, ms, outs, 0)
    requires f0 == FormeClose(fav, ClesDe(ms), []) && c0 == FormeClose(cav, ClesDe(ms), [])
    ensures modules == ModulesA(mav, ms, outs, |ms|)
    ensures files == FormeClose(fav, ClesDe(ms), ApportsFichiers(outs))
    ensures checks == FormeClose(cav, ClesDe(ms), ApportsAttentes(outs))
  {
    modules, files, checks := m0, f0, c0;
    assert ApportsFichiers(outs[..0]) == [] && ApportsAttentes(outs[..0]) == [];
    for i := 0 to |outs|
      invariant modules == ModulesA(mav, ms, outs, i)
      invariant files == FormeClose(fav, ClesDe(ms), ApportsFichiers(outs[..i]))
      invariant checks == FormeClose(cav, ClesDe(ms), ApportsAttentes(outs[..i]))
    {
      modules := Noter(ms, outs, i, byKey, modules, mav);
      files, checks := TraiterUn(ms, outs, i, files, checks, fav, cav);
    }
    assert outs[..|outs|] == outs;
  }

  method Noter(ms: seq<Module>, outs: seq<ModuleOutcome>, i: nat, byKey: map<Cle, Module>, modules: map<Cle, string>,
      ghost mav: map<Cle, string>)
    returns (r: map<Cle, string>)
    requires ClesDistinctes(ms) && |outs| == |ms| && i < |ms| && outs[i].stateKey == ms[i].stateKey
    requires byKey.Keys == ClesDe(ms) && byKey[ms[i].stateKey] == ms[i]
    requires modules == ModulesA(mav, ms, outs, i)
    ensures r == ModulesA(mav, ms, outs, i + 1)
  {
    var o := outs[i];
    ModulesSuivants(mav, ms, outs, i);
    r := if Reconduit(o) then modules[o.stateKey := byKey[o.stateKey].fingerprint]
         else modules - {o.stateKey};
  }

  method TraiterUn(ms: seq<Module>, outs: seq<ModuleOutcome>, i: nat, files: map<Chemin, FileState>,
      checks: map<string, SystemCheck>,
                   ghost fav: map<Chemin, FileState>, ghost cav: map<string, SystemCheck>)
    returns (f: map<Chemin, FileState>, c: map<string, SystemCheck>)
    requires i < |outs| && ApportsValides(ApportsFichiers(outs)) && ApportsValides(ApportsAttentes(outs)) &&
        "" !in ClesDe(ms)
    requires files == FormeClose(fav, ClesDe(ms), ApportsFichiers(outs[..i]))
    requires checks == FormeClose(cav, ClesDe(ms), ApportsAttentes(outs[..i]))
    ensures f == FormeClose(fav, ClesDe(ms), ApportsFichiers(outs[..i + 1]))
    ensures c == FormeClose(cav, ClesDe(ms), ApportsAttentes(outs[..i + 1]))
  {
    var o := outs[i];
    ApportsPrefixes(outs, i);
    var applique := o.resultat == Applied;
    f := Traiter(files, Apport(o.stateKey, applique, o.files), fav, ClesDe(ms), ApportsFichiers(outs[..i]));
    c := Traiter(checks, Apport(o.stateKey, applique, o.checks), cav, ClesDe(ms), ApportsAttentes(outs[..i]));
  }

  method BuildScopeState(p: Policy, avant: Option<EtatScope>, report: Report) returns (e: EtatScope)
    requires RapportPour(p.modules, report.modules)
    ensures e == EtatConstruit(p, avant, report)
  {
    var byKey, modes := Index(p.modules);
    var m0: map<Cle, string>, f0: map<Chemin, FileState>, c0: map<string, SystemCheck> := map[], map[], map[];
    if avant.Some? { m0, f0, c0 := avant.value.modules, avant.value.files, avant.value.checks; }
    var modules := m0 - (m0.Keys - byKey.Keys);
    var files := PurgerMap(f0, byKey.Keys);
    var checks := PurgerMap(c0, byKey.Keys);
    ModulesInitiaux(m0, p.modules, report.modules);
    modules, files, checks := Derouler(p.modules, report.modules, byKey, modules, files, checks, m0, f0, c0);
    ModulesFinaux(m0, p.modules, report.modules);
    var fp := if report.statut == StatutApplied then p.fingerprint
              else if avant.Some? then avant.value.fingerprint
              else "";
    e := EtatScope(fp, p.version, StatutTexte(report.statut), modules, files, checks, modes, VERSION_INVENTAIRE);
  }

  /** `byKey` and the modes. */
  method Index(ms: seq<Module>) returns (byKey: map<Cle, Module>, modes: map<Cle, string>)
    requires ClesDistinctes(ms)
    ensures byKey.Keys == ClesDe(ms) && "" !in byKey
    ensures forall i | 0 <= i < |ms| :: byKey[ms[i].stateKey] == ms[i]
    ensures modes == ModesDe(ms)
  {
    hide Rang, ClesDe, Mode;
    byKey, modes := map[], map[];
    for i := 0 to |ms|
      invariant forall k :: k in byKey <==> k in ClesDe(ms) && Rang(ms, k) < i
      invariant forall k | k in byKey :: byKey[k] == ms[Rang(ms, k)]
      invariant forall k :: k in modes <==> k in byKey && Mode(byKey[k]) != Enforce
      invariant forall k | k in modes :: modes[k] == Texto(Mode(byKey[k]))
    {
      RangUnique(ms, i);
      CleDe(ms, i);
      forall k | k in ClesDe(ms) && k != ms[i].stateKey ensures Rang(ms, k) < i + 1 <==> Rang(ms, k) < i {
        RangDe(ms, k);
      }
      byKey := byKey[ms[i].stateKey := ms[i]];
      if Mode(ms[i]) != Enforce { modes := modes[ms[i].stateKey := Texto(Mode(ms[i]))]; }
    }
    forall i | 0 <= i < |ms| ensures ms[i].stateKey in byKey && byKey[ms[i].stateKey] == ms[i] {
      RangUnique(ms, i);
      CleDe(ms, i);
    }
    assert byKey.Keys == ClesDe(ms) by {
      forall k | k in ClesDe(ms) ensures k in byKey { RangDe(ms, k); }
    }
    SansCleVide(ms);
    ModesIndexes(ms, byKey, modes);
  }

  lemma SansCleVide(ms: seq<Module>)
    requires ClesDistinctes(ms)
    ensures "" !in ClesDe(ms)
  {
  }

  lemma ModesIndexes(ms: seq<Module>, byKey: map<Cle, Module>, modes: map<Cle, string>)
    requires ClesDistinctes(ms) && byKey.Keys == ClesDe(ms) && forall k | k in byKey :: byKey[k] == ms[Rang(ms, k)]
    requires forall k :: k in modes <==> k in byKey && Mode(byKey[k]) != Enforce
    requires forall k | k in modes :: modes[k] == Texto(Mode(byKey[k]))
    ensures modes == ModesDe(ms)
  {
    hide Mode;
  }
}
