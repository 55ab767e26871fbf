/** One round of scan, forget, apply and record brings the machine back to its policy, audit apart. */
module Convergence {
  import opened Options
  import opened Cles
  import opened Proprietes
  import opened Inventaires
  import opened Disques
  import opened Etat
  import opened Fermeture
  import opened Application
  import opened Construction
  import opened Derive

  /** A deterministic applier: what each module of the policy does when it succeeds. */
  type Programme = Module -> seq<Geste>

  function Reussite(prog: Programme): Appliqueurs {
    m => Some(Execution(prog(m), Reussi))
  }

  ghost function Ecrivains(ms: seq<Module>, prog: Programme, p: Chemin): set<Cle> {
    set i | 0 <= i < |ms| && p in PlierFichiers(prog(ms[i])) :: ms[i].stateKey
  }

  /** Every path a module of the policy touches is recorded, owned by exactly the modules that touch it. */
  ghost predicate FichiersEtablis(files: map<Chemin, FileState>, ms: seq<Module>, prog: Programme) {
    && (forall c :: c in files <==> Ecrivains(ms, prog, c) != {})
    && (forall c | c in files :: Canonique(files[c]) && Proprietaires(files[c]) == Ecrivains(ms, prog, c))
  }

  /** The state a full application of `p` leaves: every fingerprint, the modes of the policy, the files. */
  ghost predicate EtabliPour(e: EtatScope, p: Policy, prog: Programme) {
    && ClesDistinctes(p.modules)
    && (forall i | 0 <= i < |p.modules| :: DejaPose(p.modules[i], Some(e)))
    && e.modes == ModesDe(p.modules)
    && FichiersEtablis(e.files, p.modules, prog)
  }

  // --- reports are well formed ------------------------------------------------------

  lemma RapportValide(portee: Portee, ms: seq<Module>, avant: Option<EtatScope>, appl: Appliqueurs, erreurs: set<Cle>)
    requires ClesDistinctes(ms)
    ensures RapportPour(ms, OutcomesDe(portee, ms, avant, appl, erreurs))
  {
    var outs := OutcomesDe(portee, ms, avant, appl, erreurs);
    forall i | 0 <= i < |ms|
      ensures outs[i] == OutcomeDe(portee, ms[i], avant, appl, erreurs)
      ensures outs[i].stateKey == ms[i].stateKey
      ensures outs[i].resultat != Applied ==> outs[i].files == map[]
      ensures !Reconduit(outs[i]) ==> outs[i].checks == map[]
      ensures forall c | c in outs[i].files ::
          outs[i].files[c].stateKey == ms[i].stateKey && outs[i].files[c].owners == []
      ensures forall c | c in outs[i].checks ::
          outs[i].checks[c].stateKey == ms[i].stateKey && outs[i].checks[c].owners == []
    {
    }
    ApportsDistincts(ms, outs);
  }

  lemma ApportsDistincts(ms: seq<Module>, outs: seq<ModuleOutcome>)
    requires ClesDistinctes(ms) && |outs| == |ms|
    requires forall i | 0 <= i < |ms| :: outs[i].stateKey == ms[i].stateKey
    requires forall i | 0 <= i < |ms| :: forall c | c in outs[i].files ::
        outs[i].files[c].stateKey == ms[i].stateKey && outs[i].files[c].owners == []
    requires forall i | 0 <= i < |ms| :: forall c | c in outs[i].checks ::
        outs[i].checks[c].stateKey == ms[i].stateKey && outs[i].checks[c].owners == []
    ensures ApportsValides(ApportsFichiers(outs)) && ApportsValides(ApportsAttentes(outs))
  {
    var f, a := ApportsFichiers(outs), ApportsAttentes(outs);
    forall i | 0 <= i < |outs| ensures f[i].cle == ms[i].stateKey && a[i].cle == ms[i].stateKey {}
  }

  // --- what the disk and the record agree on ---------------------------------------

  function NoeudVoulu(v: VouluFichier): Noeud {
    match v
    case Ecrit(s, m) => Fichier(s.contenu, m)
    case Retire => Vide
  }

  lemma NoeudVouluConforme(v: VouluFichier)
    ensures EcartFichier(v, NoeudVoulu(v)) == None
  {
  }

  lemma {:induction false} PlierConcat<T>(l: seq<Ligne<T>>, k: seq<Ligne<T>>)
    ensures Plier(l + k) == Plier(l) + Plier(k)
  {
    if k == [] {
      assert l + k == l;
    } else {
      PlierConcat(l, k[..|k| - 1]);
      assert (l + k)[..|l + k| - 1] == l + k[..|k| - 1];
    }
  }

  lemma PlierFichiersConcat(g: seq<Geste>, h: seq<Geste>)
    ensures PlierFichiers(g + h) == PlierFichiers(g) + PlierFichiers(h)
  {
    assert LignesFichiers(g + h) == LignesFichiers(g) + LignesFichiers(h);
    PlierConcat(LignesFichiers(g), LignesFichiers(h));
  }

  /** After the operations, the disk holds what the fold of the log says, and the rest is untouched. */
  lemma {:induction false} DisqueSuitLeJournal(d: Contenu, g: seq<Geste>, p: Chemin)
    ensures En(Jouer(d, g), p) == if p in PlierFichiers(g) then NoeudVoulu(PlierFichiers(g)[p]) else En(d, p)
  {
    if g != [] {
      var i := |g| - 1;
      DisqueSuitLeJournal(d, g[..i], p);
      assert LignesFichiers(g)[..i] == LignesFichiers(g[..i]);
    }
  }

  /** At `p`, a fold of the log holds what the last of these outcomes that brought it declared. */
  ghost predicate Concorde(c: seq<Apport<VouluFichier>>, g: map<Chemin, VouluFichier>, p: Chemin) {
    && (p in g <==> DernierApport(c, p) >= 0)
    && (p in g ==> g[p] == c[DernierApport(c, p)].pose[p].objet)
  }

  lemma ConcordeSuivant(c: seq<Apport<VouluFichier>>, g: map<Chemin, VouluFichier>, d: map<Chemin, VouluFichier>,
      cle: Cle, p: Chemin)
    requires c != [] && Concorde(c[..|c| - 1], g, p) && c[|c| - 1].pose == Attribuer(d, cle)
    ensures Concorde(c, g + d, p)
  {
  }

  lemma ConcordeVide(avant: Option<EtatScope>, appl: Appliqueurs, p: Chemin)
    ensures Concorde(ApportsFichiers(OutcomesDe(Machine, [], avant, appl, {})), PlierFichiers(GestesCumules([], avant,
        appl, {})), p)
  {
    assert LignesFichiers([]) == [];
  }

  /** The fold over the whole cycle is what the last module that brought `p` declared. */
  lemma {:induction false} DernierEcrivain(ms: seq<Module>, avant: Option<EtatScope>, prog: Programme, p: Chemin)
    ensures Concorde(ApportsFichiers(OutcomesDe(Machine, ms, avant, Reussite(prog), {})),
                     PlierFichiers(GestesCumules(ms, avant, Reussite(prog), {})), p)
  {
    hide Concorde, GestesDe, OutcomeDe, PlierFichiers, Reussite, Attribuer;
    var appl := Reussite(prog);
    if ms == [] {
      ConcordeVide(avant, appl, p);
    } else {
      var n := |ms| - 1;
      var outs := OutcomesDe(Machine, ms, avant, appl, {});
      var c := ApportsFichiers(outs);
      DernierEcrivain(ms[..n], avant, prog, p);
      assert OutcomesDe(Machine, ms[..n], avant, appl, {}) == outs[..n];
      assert ApportsFichiers(outs[..n]) == c[..n];
      var h := GestesDe(ms[n], avant, appl, {});
      PlierFichiersConcat(GestesCumules(ms[..n], avant, appl, {}), h);
      ApportDernier(ms[n], avant, prog);
      ConcordeSuivant(c, PlierFichiers(GestesCumules(ms[..n], avant, appl, {})), PlierFichiers(h), ms[n].stateKey, p);
    }
  }

  lemma ApportDernier(m: Module, avant: Option<EtatScope>, prog: Programme)
    ensures OutcomeDe(Machine, m, avant, Reussite(prog), {}).files ==
            Attribuer(PlierFichiers(GestesDe(m, avant, Reussite(prog), {})), m.stateKey)
  {
    SansInscription(m.stateKey);
  }

  // --- an application in which exactly the modules of `r` are replayed, and succeed ---

  /** Files established for the policy, or about to be: every module is replayed. */
  ghost predicate Pret(files: map<Chemin, FileState>, ms: seq<Module>, r: set<Cle>, prog: Programme) {
    FichiersEtablis(files, ms, prog) || ClesDe(ms) <= r
  }

  ghost predicate RejoueExactement(ms: seq<Module>, e: EtatScope, r: set<Cle>) {
    forall i | 0 <= i < |ms| :: DejaPose(ms[i], Some(e)) <==> ms[i].stateKey !in r
  }

  ghost function Apports(ms: seq<Module>, e: EtatScope, prog: Programme): seq<Apport<VouluFichier>> {
    ApportsFichiers(OutcomesDe(Machine, ms, Some(e), Reussite(prog), {}))
  }

  lemma OutcomeRejoue(m: Module, e: EtatScope, prog: Programme)
    ensures var o := OutcomeDe(Machine, m, Some(e), Reussite(prog), {});
            && o.stateKey == m.stateKey && Reconduit(o)
            && (o.resultat == Applied <==> !DejaPose(m, Some(e)))
            && o.files == if DejaPose(m, Some(e)) then map[] else Attribuer(PlierFichiers(prog(m)), m.stateKey)
  {
    if !DejaPose(m, Some(e)) {
      assert Reussite(prog)(m) == Some(Execution(prog(m), Reussi));
    }
  }

  lemma ApportDe(ms: seq<Module>, e: EtatScope, r: set<Cle>, prog: Programme, i: nat)
    requires RejoueExactement(ms, e, r) && i < |ms|
    ensures i < |Apports(ms, e, prog)|
    ensures var a := Apports(ms, e, prog)[i];
            && a.cle == ms[i].stateKey
            && a.remplace == (a.cle in r)
            && a.pose == if a.cle in r then Attribuer(PlierFichiers(prog(ms[i])), a.cle) else map[]
  {
    OutcomeRejoue(ms[i], e, prog);
  }

  lemma RemplacesRejoues(ms: seq<Module>, e: EtatScope, r: set<Cle>, prog: Programme)
    requires RejoueExactement(ms, e, r)
    ensures Remplaces(Apports(ms, e, prog)) == ClesDe(ms) * r
  {
    var a := Apports(ms, e, prog);
    forall i | 0 <= i < |ms| { ApportDe(ms, e, r, prog, i); }
    forall k | k in ClesDe(ms) * r ensures k in Remplaces(a) {
      var i :| 0 <= i < |ms| && ms[i].stateKey == k;
      assert a[i].remplace && a[i].cle == k;
    }
  }

  lemma ApporteursRejoues(ms: seq<Module>, e: EtatScope, r: set<Cle>, prog: Programme, c: Chemin)
    requires RejoueExactement(ms, e, r)
    ensures Apporteurs(Apports(ms, e, prog), c) == Ecrivains(ms, prog, c) * r
  {
    var a := Apports(ms, e, prog);
    forall i | 0 <= i < |ms| { ApportDe(ms, e, r, prog, i); }
    forall k | k in Ecrivains(ms, prog, c) * r ensures k in Apporteurs(a, c) {
      var i :| 0 <= i < |ms| && c in PlierFichiers(prog(ms[i])) && ms[i].stateKey == k;
      assert c in a[i].pose && a[i].cle == k;
    }
  }

  lemma StablesSiEtablis(ms: seq<Module>, e: EtatScope, r: set<Cle>, prog: Programme, c: Chemin)
    requires RejoueExactement(ms, e, r) && FichiersEtablis(e.files, ms, prog)
    ensures ProprietairesFinals(e.files, ClesDe(ms), Apports(ms, e, prog), c) == Ecrivains(ms, prog, c)
  {
    hide Apports, Remplaces, Apporteurs, RejoueExactement, Proprietaires, Canonique, Ecrivains, ClesDe;
    RemplacesRejoues(ms, e, r, prog);
    ApporteursRejoues(ms, e, r, prog, c);
    EcrivainsConnus(ms, prog, c);
    var w := Ecrivains(ms, prog, c);
    if c in e.files { assert (w * ClesDe(ms)) - (ClesDe(ms) * r) + (w * r) == w; }
  }

  lemma EcrivainsConnus(ms: seq<Module>, prog: Programme, c: Chemin)
    ensures Ecrivains(ms, prog, c) <= ClesDe(ms)
  {
  }

  lemma StablesSiTout(ms: seq<Module>, e: EtatScope, r: set<Cle>, prog: Programme, c: Chemin)
    requires RejoueExactement(ms, e, r) && ClesDe(ms) <= r
    ensures ProprietairesFinals(e.files, ClesDe(ms), Apports(ms, e, prog), c) == Ecrivains(ms, prog, c)
  {
    RemplacesRejoues(ms, e, r, prog);
    ApporteursRejoues(ms, e, r, prog, c);
    var w := Ecrivains(ms, prog, c);
    assert w <= ClesDe(ms);
    assert w * r == w && ClesDe(ms) * r == ClesDe(ms);
  }

  /** Replaying moves no ownership. */
  lemma ProprietairesStables(ms: seq<Module>, e: EtatScope, r: set<Cle>, prog: Programme, c: Chemin)
    requires RejoueExactement(ms, e, r) && Pret(e.files, ms, r, prog)
    ensures ProprietairesFinals(e.files, ClesDe(ms), Apports(ms, e, prog), c) == Ecrivains(ms, prog, c)
  {
    if ClesDe(ms) <= r { StablesSiTout(ms, e, r, prog, c); } else { StablesSiEtablis(ms, e, r, prog, c); }
  }

  /** The recorded state after such an application. */
  ghost function EtatApres(e: EtatScope, p: Policy, prog: Programme): EtatScope
    requires ClesDistinctes(p.modules)
  {
    RapportValide(Machine, p.modules, Some(e), Reussite(prog), {});
    EtatConstruit(p, Some(e), RapportDe(Machine, p, Some(e), Reussite(prog), {}))
  }

  ghost function DisqueApres(e: EtatScope, d: Contenu, p: Policy, prog: Programme): Contenu {
    Jouer(d, GestesCumules(p.modules, Some(e), Reussite(prog), {}))
  }

  lemma FichierApres(e: EtatScope, r: set<Cle>, p: Policy, prog: Programme, c: Chemin)
    requires ClesDistinctes(p.modules)
    requires RejoueExactement(p.modules, e, r) && Pret(e.files, p.modules, r, prog)
    ensures var f := EtatApres(e, p, prog).files;
            var a := Apports(p.modules, e, prog);
            && (c in f <==> Ecrivains(p.modules, prog, c) != {})
            && (c in f ==> f[c] == EntreeFinale(e.files, ClesDe(p.modules), a, c))
            && (c in f ==> Canonique(f[c]) && Proprietaires(f[c]) == Ecrivains(p.modules, prog, c))
  {
    RapportValide(Machine, p.modules, Some(e), Reussite(prog), {});
    ProprietairesStables(p.modules, e, r, prog, c);
    ProprietairesVus(e.files, ClesDe(p.modules), Apports(p.modules, e, prog), c);
  }

  /** The application leaves the state established again, whatever was replayed. */
  lemma ResteEtabli(e: EtatScope, r: set<Cle>, p: Policy, prog: Programme)
    requires ClesDistinctes(p.modules)
    requires RejoueExactement(p.modules, e, r) && Pret(e.files, p.modules, r, prog)
    ensures EtabliPour(EtatApres(e, p, prog), p, prog)
  {
    var f := EtatApres(e, p, prog);
    var outs := OutcomesDe(Machine, p.modules, Some(e), Reussite(prog), {});
    RapportValide(Machine, p.modules, Some(e), Reussite(prog), {});
    forall i | 0 <= i < |p.modules| ensures DejaPose(p.modules[i], Some(f)) {
      OutcomeRejoue(p.modules[i], e, prog);
      RetenuEn(p.modules, outs, i);
    }
    forall c { FichierApres(e, r, p, prog, c); }
  }

  /** A path one of the replayed modules writes is back to what the record says. */
  lemma RejoueRemet(e: EtatScope, d: Contenu, p: Policy, prog: Programme, r: set<Cle>, c: Chemin)
    requires ClesDistinctes(p.modules) && RejoueExactement(p.modules, e, r) && Pret(e.files, p.modules, r, prog)
    requires Ecrivains(p.modules, prog, c) * r != {}
    ensures c in EtatApres(e, p, prog).files
    ensures ItemFichier(EtatApres(e, p, prog).files, DisqueApres(e, d, p, prog), c) == []
  {
    hide EtatApres, PlierFichiers, GestesCumules, ClesDe, RejoueExactement, Pret, Ecrivains, EcartFichier, NoeudVoulu;
    var g := GestesCumules(p.modules, Some(e), Reussite(prog), {});
    ObjetRejoue(e, p, prog, r, c);
    DisqueSuitLeJournal(d, g, c);
    NoeudVouluConforme(PlierFichiers(g)[c]);
  }

  lemma ObjetRejoue(e: EtatScope, p: Policy, prog: Programme, r: set<Cle>, c: Chemin)
    requires ClesDistinctes(p.modules) && RejoueExactement(p.modules, e, r) && Pret(e.files, p.modules, r, prog)
    requires Ecrivains(p.modules, prog, c) * r != {}
    ensures var f, g := EtatApres(e, p, prog).files,
                        PlierFichiers(GestesCumules(p.modules, Some(e), Reussite(prog), {}));
            c in f && c in g && f[c].objet == g[c]
  {
    hide EtatApres, ProprietairesFinals, RejoueExactement, Pret, GestesCumules, PlierFichiers, ClesDe, DernierApport,
         Ecrivains, ApportsFichiers, OutcomesDe, Reussite, EntreeFinale, Apporteurs, ClesDistinctes, Canonique,
         Proprietaires;
    FichierApres(e, r, p, prog, c);
    ProprietairesStables(p.modules, e, r, prog, c);
    ApporteursRejoues(p.modules, e, r, prog, c);
    DernierEcrivain(p.modules, Some(e), prog, c);
    ObjetFinal(e.files, ClesDe(p.modules), Apports(p.modules, e, prog), c);
  }

  /** A path no replayed module writes keeps its record and its content. */
  lemma NonRejoueIntact(e: EtatScope, d: Contenu, p: Policy, prog: Programme, r: set<Cle>, c: Chemin)
    requires ClesDistinctes(p.modules) && RejoueExactement(p.modules, e, r) && FichiersEtablis(e.files, p.modules, prog)
    requires Ecrivains(p.modules, prog, c) * r == {} && c in e.files
    ensures c in EtatApres(e, p, prog).files && EtatApres(e, p, prog).files[c] == e.files[c]
    ensures En(DisqueApres(e, d, p, prog), c) == En(d, c)
  {
    var a := Apports(p.modules, e, prog);
    FichierApres(e, r, p, prog, c);
    ApporteursRejoues(p.modules, e, r, prog, c);
    DernierEcrivain(p.modules, Some(e), prog, c);
    DernierApportSsi(a, c);
    DisqueSuitLeJournal(d, GestesCumules(p.modules, Some(e), Reussite(prog), {}), c);
    ProprietairesStables(p.modules, e, r, prog, c);
    CanoniqueEstPose(e.files[c]);
  }

  // --- the round ----------------------------------------------------------------------

  ghost function Oublie(e: EtatScope, d: Contenu, v: Verificateurs): EtatScope { ApresEcarts(e, Scan(e, d, v)) }

  lemma RepondantsCanoniques<T>(path: string, s: Suivi<T>, k: DriftKind)
    requires Canonique(s)
    ensures Repondants(Item(path, s, k)) == Proprietaires(s)
  {
    CanoniqueEstPose(s);
    if s.owners == [] { SingletonDe(Proprietaires(s), s.stateKey); }
  }

  lemma {:induction false} ScanContient(ps: seq<Chemin>, files: map<Chemin, FileState>, d: Contenu, p: Chemin)
    requires (forall q | q in ps :: q in files) && p in ps
    ensures forall i | i in ItemFichier(files, d, p) :: i in ScanChemins(ps, files, d)
  {
    var n := |ps| - 1;
    assert ps == ps[..n] + [ps[n]];
    if p != ps[n] { ScanContient(ps[..n], files, d, p); }
  }

  lemma OublierRejoue(e: EtatScope, ms: seq<Module>, r: set<Cle>, f: EtatScope)
    requires forall i | 0 <= i < |ms| :: DejaPose(ms[i], Some(e))
    requires f.modules == Oublier(e, r).modules
    ensures RejoueExactement(ms, f, r)
  {
    forall i | 0 <= i < |ms| ensures DejaPose(ms[i], Some(f)) <==> ms[i].stateKey !in r {
      assert DejaPose(ms[i], Some(e));
    }
  }

  lemma EtabliPose(e: EtatScope, p: Policy, prog: Programme)
    requires EtabliPour(e, p, prog)
    ensures ClesDistinctes(p.modules) && forall i | 0 <= i < |p.modules| :: DejaPose(p.modules[i], Some(e))
  {
  }

  lemma OublieRejoue(e: EtatScope, items: seq<DriftItem>, p: Policy, prog: Programme)
    requires EtabliPour(e, p, prog)
    ensures RejoueExactement(p.modules, ApresEcarts(e, items), Corriges(e, items))
    ensures ApresEcarts(e, items).files == e.files
  {
    hide ModuleMode, Corriges, EtabliPour;
    EtabliPose(e, p, prog);
    var r := Corriges(e, items);
    assert r == {} ==> e.modules == Oublier(e, r).modules;
    OublierRejoue(e, p.modules, r, ApresEcarts(e, items));
  }

  ghost function Gardes(e: EtatScope, items: seq<DriftItem>): seq<DriftItem> {
    if items == [] then []
    else Gardes(e, items[..|items| - 1]) + (if ToutEnAudit(e, items[|items| - 1]) then [items[|items| - 1]] else [])
  }

  lemma GardesUn(e: EtatScope, i: DriftItem)
    ensures Gardes(e, [i]) == if ToutEnAudit(e, i) then [i] else []
  {
    assert [i][..0] == [];
  }

  lemma GardesConcat(e: EtatScope, a: seq<DriftItem>, b: seq<DriftItem>)
    requires |b| <= 1
    ensures Gardes(e, a + b) == Gardes(e, a) + Gardes(e, b)
  {
    if b == [] {
      assert a + b == a;
    } else {
      assert (a + b)[..|a + b| - 1] == a && b[..0] == [];
    }
  }

  /** Every finding has its enforce owners forgotten, and only them. */
  lemma EcartCorrige(e: EtatScope, items: seq<DriftItem>, i: DriftItem)
    requires i in items && i.kind != Unverifiable && Repondants(i) != {}
    ensures ToutEnAudit(e, i) <==> Repondants(i) * Corriges(e, items) == {}
  {
    var j :| 0 <= j < |items| && items[j] == i;
    forall k | k in Repondants(i) ensures k in Corriges(e, items) <==> ModuleMode(e, k) != Audit {
      assert Repond(items[j], k);
    }
  }

  lemma ItemDuScan(e: EtatScope, d: Contenu, v: Verificateurs, c: Chemin)
    requires c in e.files && ItemFichier(e.files, d, c) != []
    ensures ItemFichier(e.files, d, c)[0] in Scan(e, d, v)
  {
    DansCanon(e.files.Keys);
    ScanContient(Canon(e.files.Keys), e.files, d, c);
  }

  /** What one round does at a recorded path, `r` being the modules replayed. */
  ghost predicate FideleEn(files: map<Chemin, FileState>, d: Contenu, f: map<Chemin, FileState>, d2: Contenu,
      w: set<Cle>, r: set<Cle>, c: Chemin)
    requires c in files
  {
    && c in f
    && (w * r == {} ==> f[c] == files[c] && En(d2, c) == En(d, c))
    && (w * r != {} ==> ItemFichier(f, d2, c) == [])
  }

  lemma TourFidele(e: EtatScope, d: Contenu, p: Policy, prog: Programme, r: set<Cle>, c: Chemin)
    requires ClesDistinctes(p.modules) && RejoueExactement(p.modules, e, r) && FichiersEtablis(e.files, p.modules, prog)
    requires c in e.files
    ensures FideleEn(e.files, d, EtatApres(e, p, prog).files, DisqueApres(e, d, p, prog), Ecrivains(p.modules, prog,
        c), r, c)
  {
    if Ecrivains(p.modules, prog, c) * r == {} {
      NonRejoueIntact(e, d, p, prog, r, c);
    } else {
      RejoueRemet(e, d, p, prog, r, c);
    }
  }

  lemma ItemEstUnConstat(files: map<Chemin, FileState>, d: Contenu, c: Chemin)
    requires c in files && ItemFichier(files, d, c) != []
    ensures ItemFichier(files, d, c) == [Item(c, files[c], ItemFichier(files, d, c)[0].kind)]
    ensures ItemFichier(files, d, c)[0].kind != Unverifiable
  {
  }

  lemma MemeItem(files: map<Chemin, FileState>, d: Contenu, f: map<Chemin, FileState>, d2: Contenu, c: Chemin)
    requires c in files && c in f && f[c] == files[c] && En(d2, c) == En(d, c)
    ensures ItemFichier(f, d2, c) == ItemFichier(files, d, c)
  {
  }

  lemma EcartResteOuPart(e: EtatScope, items: seq<DriftItem>, d: Contenu, f: map<Chemin, FileState>, d2: Contenu,
      c: Chemin, i: DriftItem)
    requires c in e.files && Canonique(e.files[c])
    requires FideleEn(e.files, d, f, d2, Proprietaires(e.files[c]), Corriges(e, items), c)
    requires ItemFichier(e.files, d, c) == [i] && i in items
    ensures ItemFichier(f, d2, c) == if ToutEnAudit(e, i) then [i] else []
  {
    ItemEstUnConstat(e.files, d, c);
    RepondantsCanoniques(c, e.files[c], i.kind);
    EcartCorrige(e, items, i);
    if ToutEnAudit(e, i) { MemeItem(e.files, d, f, d2, c); }
  }

  /** One path through one round: its item stays exactly when all its owners are in audit. */
  lemma ConvergenceEn(e: EtatScope, items: seq<DriftItem>, d: Contenu, f: map<Chemin, FileState>, d2: Contenu,
      c: Chemin)
    requires c in e.files && Canonique(e.files[c])
    requires FideleEn(e.files, d, f, d2, Proprietaires(e.files[c]), Corriges(e, items), c)
    requires ItemFichier(e.files, d, c) != [] ==> ItemFichier(e.files, d, c)[0] in items
    ensures ItemFichier(f, d2, c) == Gardes(e, ItemFichier(e.files, d, c))
  {
    var avant := ItemFichier(e.files, d, c);
    if avant != [] {
      EcartResteOuPart(e, items, d, f, d2, c, avant[0]);
      GardesUn(e, avant[0]);
    }
  }

  lemma {:induction false} ConvergenceSur(ps: seq<Chemin>, e: EtatScope, items: seq<DriftItem>, d: Contenu,
      f: map<Chemin, FileState>, d2: Contenu)
    requires forall c | c in ps :: c in e.files && Canonique(e.files[c])
    requires forall c | c in ps :: FideleEn(e.files, d, f, d2, Proprietaires(e.files[c]), Corriges(e, items), c)
    requires forall c | c in ps :: ItemFichier(e.files, d, c) != [] ==> ItemFichier(e.files, d, c)[0] in items
    ensures forall c | c in ps :: c in f
    ensures ScanChemins(ps, f, d2) == Gardes(e, ScanChemins(ps, e.files, d))
  {
    if ps != [] {
      var n := |ps| - 1;
      assert forall c | c in ps[..n] :: c in ps;
      ConvergenceSur(ps[..n], e, items, d, f, d2);
      assert ps[n] in ps;
      ConvergenceEn(e, items, d, f, d2, ps[n]);
      GardesConcat(e, ScanChemins(ps[..n], e.files, d), ItemFichier(e.files, d, ps[n]));
    }
  }

  /** The recorded state and the disk after one round, every replayed applier succeeding. */
  ghost function TourEtat(e: EtatScope, d: Contenu, v: Verificateurs, p: Policy, prog: Programme): EtatScope
    requires ClesDistinctes(p.modules)
  {
    EtatApres(Oublie(e, d, v), p, prog)
  }

  ghost function TourDisque(e: EtatScope, d: Contenu, v: Verificateurs, p: Policy, prog: Programme): Contenu {
    DisqueApres(Oublie(e, d, v), d, p, prog)
  }

  lemma TourPret(e: EtatScope, d: Contenu, v: Verificateurs, p: Policy, prog: Programme, c: Chemin)
    requires EtabliPour(e, p, prog) && c in e.files
    ensures Canonique(e.files[c])
    ensures FideleEn(e.files, d, TourEtat(e, d, v, p, prog).files, TourDisque(e, d, v, p, prog),
                     Proprietaires(e.files[c]), Corriges(e, Scan(e, d, v)), c)
    ensures ItemFichier(e.files, d, c) != [] ==> ItemFichier(e.files, d, c)[0] in Scan(e, d, v)
  {
    OublieRejoue(e, Scan(e, d, v), p, prog);
    TourFidele(Oublie(e, d, v), d, p, prog, Corriges(e, Scan(e, d, v)), c);
    if ItemFichier(e.files, d, c) != [] { ItemDuScan(e, d, v, c); }
  }

  lemma TourEtabli(e: EtatScope, d: Contenu, v: Verificateurs, p: Policy, prog: Programme)
    requires EtabliPour(e, p, prog)
    ensures EtabliPour(TourEtat(e, d, v, p, prog), p, prog)
    ensures TourEtat(e, d, v, p, prog).files.Keys == e.files.Keys
  {
    OublieRejoue(e, Scan(e, d, v), p, prog);
    ResteEtabli(Oublie(e, d, v), Corriges(e, Scan(e, d, v)), p, prog);
  }

  /** One-round convergence, whatever was done to the disk and whatever the checkers say: the file items
      left are exactly those, in the same order and unchanged, whose owners are all in audit; and the
      state is established for the policy again, so the next round starts from the same hypothesis. */
  lemma ConvergenceEnUnTour(e: EtatScope, d: Contenu, v: Verificateurs, p: Policy, prog: Programme)
    requires EtabliPour(e, p, prog)
    ensures EtabliPour(TourEtat(e, d, v, p, prog), p, prog)
    ensures ScanFichiers(TourEtat(e, d, v, p, prog), TourDisque(e, d, v, p, prog)) == Gardes(e, ScanFichiers(e, d))
  {
    TourEtabli(e, d, v, p, prog);
    DansCanon(e.files.Keys);
    forall c | c in Canon(e.files.Keys) { TourPret(e, d, v, p, prog, c); }
    ConvergenceSur(Canon(e.files.Keys), e, Scan(e, d, v), d, TourEtat(e, d, v, p, prog).files, TourDisque(e, d, v, p,
        prog));
  }

  /** The report as it is sent. */
  ghost function Marques(e: EtatScope, items: seq<DriftItem>): seq<DriftItem> {
    seq(|items|, i requires 0 <= i < |items| => Marque(e, items[i]))
  }

  /** Of such a report, the items it says nobody corrects, and the unreadable ones whose owners are all in
      audit. */
  ghost function NonCorriges(e: EtatScope, items: seq<DriftItem>): seq<DriftItem> {
    if items == [] then []
    else
      var n := |items| - 1;
      NonCorriges(e, items[..n])
      + (if items[n].nonCorrige || (items[n].kind == Unreadable && ToutEnAudit(e, items[n])) then [items[n]] else [])
  }

  lemma {:induction false} GardesMarques(e: EtatScope, items: seq<DriftItem>)
    requires forall i | i in items :: !i.nonCorrige && i.kind != Unverifiable
    ensures Marques(e, Gardes(e, items)) == NonCorriges(e, Marques(e, items))
  {
    if items != [] {
      var n := |items| - 1;
      GardesMarques(e, items[..n]);
      var m := Marques(e, items);
      assert m[..n] == Marques(e, items[..n]) && m[n] == Marque(e, items[n]);
      MarqueMemeAudit(e, items[n]);
      hide ToutEnAudit;
    }
  }

  lemma MarqueMemeAudit(e: EtatScope, i: DriftItem)
    ensures ToutEnAudit(e, Marque(e, i)) <==> ToutEnAudit(e, i)
  {
    assert Repondants(Marque(e, i)) == Repondants(i);
  }

  lemma {:induction false} ScanSansMention(ps: seq<Chemin>, files: map<Chemin, FileState>, d: Contenu)
    requires forall p | p in ps :: p in files
    ensures forall i | i in ScanChemins(ps, files, d) :: !i.nonCorrige && i.kind != Unverifiable
  {
    if ps != [] {
      assert forall p | p in ps[..|ps| - 1] :: p in ps;
      ScanSansMention(ps[..|ps| - 1], files, d);
    }
  }

  /** The report of the files one round later is, in order, what the report of this round says nobody corrects,
      and the unreadable files whose owners are all in audit, which it does not flag. */
  lemma GardesSontMarques(e: EtatScope, d: Contenu, v: Verificateurs, p: Policy, prog: Programme)
    requires EtabliPour(e, p, prog)
    ensures var f, d2 := TourEtat(e, d, v, p, prog), TourDisque(e, d, v, p, prog);
            Marques(f, ScanFichiers(f, d2)) == NonCorriges(e, Marques(e, ScanFichiers(e, d)))
  {
    var f, d2 := TourEtat(e, d, v, p, prog), TourDisque(e, d, v, p, prog);
    ConvergenceEnUnTour(e, d, v, p, prog);
    DansCanon(e.files.Keys);
    ScanSansMention(Canon(e.files.Keys), e.files, d);
    GardesMarques(e, ScanFichiers(e, d));
    MemesModes(e, f, ScanFichiers(f, d2));
  }

  lemma MemesModes(e: EtatScope, f: EtatScope, items: seq<DriftItem>)
    requires e.modes == f.modes
    ensures Marques(e, items) == Marques(f, items)
  {
    assert forall i :: ToutEnAudit(e, i) <==> ToutEnAudit(f, i);
  }

  lemma {:induction false} GardesContient(e: EtatScope, items: seq<DriftItem>, i: DriftItem)
    requires i in items && ToutEnAudit(e, i)
    ensures i in Gardes(e, items)
  {
    var n := |items| - 1;
    if i != items[n] { GardesContient(e, items[..n], i); }
  }

  /** A file that can no longer be read, all its owners in audit, is reported without the mention, and is still
      there a round later. */
  lemma IllisibleReste(e: EtatScope, d: Contenu, v: Verificateurs, p: Policy, prog: Programme, c: Chemin)
    requires EtabliPour(e, p, prog) && c in e.files && e.files[c].objet.Ecrit? && En(d, c) == Illisible
    requires ToutEnAudit(e, Item(c, e.files[c], Unreadable))
    ensures var i := Item(c, e.files[c], Unreadable);
            && i in ScanFichiers(e, d) && !Marque(e, i).nonCorrige
            && i in ScanFichiers(TourEtat(e, d, v, p, prog), TourDisque(e, d, v, p, prog))
  {
    hide EtabliPour, TourEtat, TourDisque, ScanFichiers, ToutEnAudit, Gardes;
    IllisibleTrouve(e, d, c);
    GardesContient(e, ScanFichiers(e, d), Item(c, e.files[c], Unreadable));
    ConvergenceEnUnTour(e, d, v, p, prog);
  }

  lemma IllisibleTrouve(e: EtatScope, d: Contenu, c: Chemin)
    requires c in e.files && e.files[c].objet.Ecrit? && En(d, c) == Illisible
    ensures Item(c, e.files[c], Unreadable) in ScanFichiers(e, d)
  {
    DansCanon(e.files.Keys);
    ScanContient(Canon(e.files.Keys), e.files, d, c);
  }

  /** One module in audit with one such file. */
  lemma IllisibleExemple() returns (e: EtatScope, d: Contenu, p: Policy, prog: Programme, c: Chemin)
    ensures EtabliPour(e, p, prog) && c in e.files && e.files[c].objet.Ecrit? && En(d, c) == Illisible
    ensures ToutEnAudit(e, Item(c, e.files[c], Unreadable))
  {
    hide EtabliPour, Mode, ModesDe;
    var k := "motd:-";
    var m := Module("motd", 1, k, "1", "audit", "");
    c, p, prog := "/etc/motd", Policy(1, "p0", [m]), (x: Module) => [Ecrire("/etc/motd", "x", 420)];
    var s: FileState := Suivi(Ecrit(SHA256("x"), 420), k, []);
    e := EtatScope("p0", 1, "applied", map[k := "1"], map[c := s], map[], ModesDe([m]), VERSION_INVENTAIRE);
    d := map[c := Illisible];
    ModeAuditExemple(m);
    ModeAudit(e, p, 0);
    UnFichierEtabli(e, p, prog, m, c);
    assert Repondants(Item(c, s, Unreadable)) == {k};
  }

  lemma UnFichierEtabli(e: EtatScope, p: Policy, prog: Programme, m: Module, c: Chemin)
    requires p.modules == [m] && m.stateKey != "" && DejaPose(m, Some(e)) && e.modes == ModesDe([m])
    requires |prog(m)| == 1 && prog(m)[0].Ecrire? && prog(m)[0].chemin == c
    requires e.files.Keys == {c} && e.files[c].stateKey == m.stateKey && e.files[c].owners == []
    ensures EtabliPour(e, p, prog)
  {
    hide Mode, ModesDe, Attribuer;
    var l := LignesFichiers(prog(m));
    assert l[..0] == [] && l[0] == Inscription(c, VouluDe(prog(m)[0]));
    assert Plier(l) == Plier(l[..0])[c := VouluDe(prog(m)[0])];
    forall x ensures Ecrivains(p.modules, prog, x) == if x == c then {m.stateKey} else {} {
      assert p.modules[0] == m;
    }
    assert Proprietaires(e.files[c]) == {m.stateKey};
  }

  /** A full application, from whatever was recorded before, establishes the state and leaves no gap. */
  lemma ApplicationComplete(e: EtatScope, d: Contenu, p: Policy, prog: Programme)
    requires ClesDistinctes(p.modules) && forall i | 0 <= i < |p.modules| :: !DejaPose(p.modules[i], Some(e))
    ensures EtabliPour(EtatApres(e, p, prog), p, prog)
    ensures ScanFichiers(EtatApres(e, p, prog), DisqueApres(e, d, p, prog)) == []
  {
    hide EtatApres, DisqueApres, ItemFichier, Ecrivains;
    var f, d2 := EtatApres(e, p, prog).files, DisqueApres(e, d, p, prog);
    assert RejoueExactement(p.modules, e, ClesDe(p.modules));
    ResteEtabli(e, ClesDe(p.modules), p, prog);
    DansCanon(f.Keys);
    forall c | c in Canon(f.Keys) ensures ItemFichier(f, d2, c) == [] {
      EcritSiSuivi(e, p, prog, c);
      RejoueSansEcart(e, d, p, prog, c);
    }
    ScanVide(Canon(f.Keys), f, d2);
  }

  lemma EcritSiSuivi(e: EtatScope, p: Policy, prog: Programme, c: Chemin)
    requires ClesDistinctes(p.modules) && EtabliPour(EtatApres(e, p, prog), p, prog) && c in EtatApres(e, p, prog).files
    ensures Ecrivains(p.modules, prog, c) != {}
  {
    hide EtatApres;
  }

  lemma RejoueSansEcart(e: EtatScope, d: Contenu, p: Policy, prog: Programme, c: Chemin)
    requires ClesDistinctes(p.modules) && RejoueExactement(p.modules, e, ClesDe(p.modules))
    requires Ecrivains(p.modules, prog, c) != {}
    ensures c in EtatApres(e, p, prog).files
    ensures ItemFichier(EtatApres(e, p, prog).files, DisqueApres(e, d, p, prog), c) == []
  {
    var w := Ecrivains(p.modules, prog, c);
    assert w <= ClesDe(p.modules) && w * ClesDe(p.modules) == w;
    RejoueRemet(e, d, p, prog, ClesDe(p.modules), c);
  }

  lemma {:induction false} ScanVide(ps: seq<Chemin>, f: map<Chemin, FileState>, d: Contenu)
    requires forall c | c in ps :: c in f && ItemFichier(f, d, c) == []
    ensures ScanChemins(ps, f, d) == []
  {
    if ps != [] {
      assert forall c | c in ps[..|ps| - 1] :: c in ps;
      ScanVide(ps[..|ps| - 1], f, d);
      assert ps[|ps| - 1] in ps;
    }
  }
}
