/** Detecting drift and deciding what to replay (drift.go, verify.go), machine scope. */
module Derive {
  import opened Options
  import opened Cles
  import opened Proprietes
  import opened Inventaires
  import opened Disques
  import opened Etat

  datatype DriftKind = Modified | Missing | Unreadable | Permissions | Reappeared | SystemState | Unverifiable

  datatype DriftItem = DriftItem(path: string, stateKey: Cle, kind: DriftKind, coproprietaires: seq<Cle>,
      nonCorrige: bool)

  /** What a checker comes back with; `SansVerificateur` for a kind this agent does not know. */
  datatype Constat = SansVerificateur | Incertain | Ecart | Conforme
  type Verificateurs = Attente -> Constat

  function Item<T>(path: string, s: Suivi<T>, kind: DriftKind): DriftItem {
    DriftItem(path, s.stateKey, kind, s.owners, false)
  }

  /** The gap between what is recorded for a path and what is there. */
  function EcartFichier(voulu: VouluFichier, n: Noeud): Option<DriftKind> {
    match voulu
    case Retire => if n.Vide? || n.Inconstatable? then None else Some(Reappeared)
    case Ecrit(somme, mode) =>
      match n
      case Vide => Some(Missing)
      case LienCasse => Some(Missing)
      case Inconstatable => Some(Unreadable)
      case Illisible => Some(Unreadable)
      case Fichier(c, m) =>
        if SHA256(c) != somme then Some(Modified)
        else if mode != 0 && m != mode then Some(Permissions)
        else None
  }

  function EcartAttente(c: Constat): Option<DriftKind> {
    if c == Incertain then Some(Unverifiable) else if c == Ecart then Some(SystemState) else None
  }

  function ItemFichier(files: map<Chemin, FileState>, d: Contenu, p: Chemin): seq<DriftItem>
    requires p in files
  {
    match EcartFichier(files[p].objet, En(d, p))
    case None => []
    case Some(k) => [Item(p, files[p], k)]
  }

  function ItemAttente(checks: map<string, SystemCheck>, v: Verificateurs, id: string): seq<DriftItem>
    requires id in checks
  {
    match EcartAttente(v(checks[id].objet))
    case None => []
    case Some(k) => [Item(checks[id].objet.target, checks[id], k)]
  }

  function ScanChemins(ps: seq<Chemin>, files: map<Chemin, FileState>, d: Contenu): seq<DriftItem>
    requires forall p | p in ps :: p in files
  {
    if ps == [] then [] else ScanChemins(ps[..|ps| - 1], files, d) + ItemFichier(files, d, ps[|ps| - 1])
  }

  function ScanIds(ids: seq<string>, checks: map<string, SystemCheck>, v: Verificateurs): seq<DriftItem>
    requires forall id | id in ids :: id in checks
  {
    if ids == [] then [] else ScanIds(ids[..|ids| - 1], checks, v) + ItemAttente(checks, v, ids[|ids| - 1])
  }

  lemma DansCanon(s: set<string>)
    ensures forall p :: p in Canon(s) <==> p in s
  {
    assert forall p :: p in Canon(s) <==> p in Elements(Canon(s));
  }

  ghost function ScanFichiers(e: EtatScope, d: Contenu): seq<DriftItem> {
    DansCanon(e.files.Keys);
    ScanChemins(Canon(e.files.Keys), e.files, d)
  }

  ghost function ScanAttentes(e: EtatScope, v: Verificateurs): seq<DriftItem> {
    DansCanon(e.checks.Keys);
    ScanIds(Canon(e.checks.Keys), e.checks, v)
  }

  ghost function Scan(e: EtatScope, d: Contenu, v: Verificateurs): seq<DriftItem> {
    ScanAttentes(e, v) + ScanFichiers(e, d)
  }

  // --- what the scan finds ----------------------------------------------------------

  /** The items about one path, in order. */
  ghost function Sur(items: seq<DriftItem>, c: Chemin): seq<DriftItem> {
    if items == [] then []
    else Sur(items[..|items| - 1], c) + (if items[|items| - 1].path == c then [items[|items| - 1]] else [])
  }

  lemma SurConcat(a: seq<DriftItem>, b: seq<DriftItem>, c: Chemin)
    requires |b| <= 1
    ensures Sur(a + b, c) == Sur(a, c) + (if b != [] && b[0].path == c then b else [])
  {
    if b == [] {
      assert a + b == a;
    } else {
      assert (a + b)[..|a + b| - 1] == a;
    }
  }

  lemma UnItem(files: map<Chemin, FileState>, d: Contenu, p: Chemin)
    requires p in files
    ensures |ItemFichier(files, d, p)| <= 1 && forall i | i in ItemFichier(files, d, p) :: i.path == p
  {
  }

  lemma DernierAPart(ps: seq<string>)
    requires Croissante(ps) && ps != []
    ensures Croissante(ps[..|ps| - 1]) && ps[|ps| - 1] !in ps[..|ps| - 1]
    ensures forall c :: c in ps <==> c in ps[..|ps| - 1] || c == ps[|ps| - 1]
  {
    var n := |ps| - 1;
    AvantTotal(ps[n], ps[n]);
    assert ps == ps[..n] + [ps[n]];
  }

  lemma {:induction false} SurChemins(ps: seq<Chemin>, files: map<Chemin, FileState>, d: Contenu, c: Chemin)
    requires (forall p | p in ps :: p in files) && Croissante(ps)
    ensures Sur(ScanChemins(ps, files, d), c) == if c in ps then ItemFichier(files, d, c) else []
  {
    if ps != [] {
      hide ItemFichier, Croissante, Sur;
      var n := |ps| - 1;
      DernierAPart(ps);
      SurChemins(ps[..n], files, d, c);
      UnItem(files, d, ps[n]);
      SurConcat(ScanChemins(ps[..n], files, d), ItemFichier(files, d, ps[n]), c);
      SansEffetVide(Sur(ScanChemins(ps[..n], files, d), c), ItemFichier(files, d, ps[n]), c, ps[n]);
    }
  }

  /** The items of another path do not count. */
  lemma SansEffetVide(s: seq<DriftItem>, i: seq<DriftItem>, c: Chemin, p: Chemin)
    requires |i| <= 1 && forall x | x in i :: x.path == p
    ensures s + (if i != [] && i[0].path == c then i else []) == if c == p then s + i else s
    ensures s == [] ==> s + i == i
  {
    assert i != [] ==> i[0] in i;
  }

  /** The scan of the files, path by path.  A path recorded as written gives no item exactly when it is a readable
      file of that content and of that mode, if one is recorded; a path recorded as removed gives one exactly
      when something is known to be there; a path that is not recorded gives none. */
  lemma ScanFichiersExact(e: EtatScope, d: Contenu, c: Chemin)
    ensures c !in e.files ==> Sur(ScanFichiers(e, d), c) == []
    ensures c in e.files && e.files[c].objet.Ecrit? ==>
              var f, n, s := e.files[c], En(d, c), Sur(ScanFichiers(e, d), c);
              && (s == [] <==> n.Fichier? && SHA256(n.contenu) == f.objet.somme
                               && (f.objet.mode == 0 || n.mode == f.objet.mode))
              && (n.Vide? || n.LienCasse? ==> s == [DriftItem(c, f.stateKey, Missing, f.owners, false)])
              && (n.Illisible? || n.Inconstatable? ==> s == [DriftItem(c, f.stateKey, Unreadable, f.owners, false)])
              && (n.Fichier? && SHA256(n.contenu) != f.objet.somme ==>
                    s == [DriftItem(c, f.stateKey, Modified, f.owners, false)])
              && (n.Fichier? && SHA256(n.contenu) == f.objet.somme && s != [] ==>
                    s == [DriftItem(c, f.stateKey, Permissions, f.owners, false)])
    ensures c in e.files && e.files[c].objet.Retire? ==>
              var f, n, s := e.files[c], En(d, c), Sur(ScanFichiers(e, d), c);
              && (s == [] <==> n.Vide? || n.Inconstatable?)
              && (s != [] ==> s == [DriftItem(c, f.stateKey, Reappeared, f.owners, false)])
  {
    DansCanon(e.files.Keys);
    SurChemins(Canon(e.files.Keys), e.files, d, c);
  }

  lemma {:induction false} DansLeScan(ids: seq<string>, checks: map<string, SystemCheck>, v: Verificateurs,
                                      i: DriftItem)
    requires forall id | id in ids :: id in checks
    ensures i in ScanIds(ids, checks, v) <==> exists id | id in ids :: i in ItemAttente(checks, v, id)
  {
    if ids != [] {
      var n := |ids| - 1;
      assert forall id | id in ids[..n] :: id in ids;
      DansLeScan(ids[..n], checks, v, i);
      assert ids[n] in ids;
      assert forall id | id in ids :: id in ids[..n] || id == ids[n];
    }
  }

  /** The scan of the expectations: an item for each one whose checker reports a gap, or cannot tell, and no
      other. */
  lemma ScanAttentesExact(e: EtatScope, v: Verificateurs, i: DriftItem)
    ensures i in ScanAttentes(e, v) <==>
            exists id | id in e.checks ::
              var c := e.checks[id];
              || (v(c.objet) == Ecart && i == DriftItem(c.objet.target, c.stateKey, SystemState, c.owners, false))
              || (v(c.objet) == Incertain && i == DriftItem(c.objet.target, c.stateKey, Unverifiable, c.owners, false))
  {
    hide ScanIds, Canon;
    DansCanon(e.checks.Keys);
    DansLeScan(Canon(e.checks.Keys), e.checks, v, i);
    assert forall id | id in e.checks :: i in ItemAttente(e.checks, v, id) <==>
        var c := e.checks[id];
        || (v(c.objet) == Ecart && i == DriftItem(c.objet.target, c.stateKey, SystemState, c.owners, false))
        || (v(c.objet) == Incertain && i == DriftItem(c.objet.target, c.stateKey, Unverifiable, c.owners, false));
    hide ItemAttente;
  }

  /** The modules that answer for an item. */
  ghost function Repondants(i: DriftItem): set<Cle> {
    Elements([i.stateKey] + i.coproprietaires) - {""}
  }

  /** Every owner of the item is in audit, and there is one. */
  ghost predicate ToutEnAudit(e: EtatScope, i: DriftItem) {
    Repondants(i) != {} && forall k | k in Repondants(i) :: ModuleMode(e, k) == Audit
  }

  ghost function Marque(e: EtatScope, i: DriftItem): DriftItem {
    if i.kind == Unverifiable || i.kind == Unreadable then i else i.(nonCorrige := ToutEnAudit(e, i))
  }

  ghost predicate Repond(i: DriftItem, k: Cle) {
    i.kind != Unverifiable && k in Repondants(i)
  }

  /** The modules to replay: every owner of every item that is a finding and not an uncertainty. */
  ghost predicate Concerne(items: seq<DriftItem>, k: Cle) {
    exists i :: 0 <= i < |items| && Repond(items[i], k)
  }

  ghost function Corriges(e: EtatScope, items: seq<DriftItem>): set<Cle> {
    set i, k | 0 <= i < |items| && k in Repondants(items[i]) && Repond(items[i], k) && ModuleMode(e, k) != Audit :: k
  }

  /** What `EnforceDrift` does to the recorded state. */
  ghost function ApresEcarts(e: EtatScope, items: seq<DriftItem>): EtatScope {
    if Corriges(e, items) == {} then e else Oublier(e, Corriges(e, items)).(fingerprint := "")
  }

  /** The mention "not corrected", in plain words: on a finding, exactly if there is an owner and every owner is
      recorded in audit; never on an uncertainty nor on an unreadable file. */
  lemma MarqueDite(e: EtatScope, i: DriftItem)
    ensures i.kind in {Unverifiable, Unreadable} ==> Marque(e, i) == i
    ensures i.kind !in {Unverifiable, Unreadable} ==>
              var o := [i.stateKey] + i.coproprietaires;
              Marque(e, i) == i.(nonCorrige := (exists k | k in o :: k != "")
                                 && forall k | k in o && k != "" :: k in e.modes && e.modes[k] == "audit")
  {
    var o := [i.stateKey] + i.coproprietaires;
    assert forall k :: k in Repondants(i) <==> k in o && k != "";
  }

  /** An owner, not in audit, of a finding that is not an uncertainty. */
  ghost predicate ARemettre(e: EtatScope, items: seq<DriftItem>, k: Cle) {
    && k != "" && !(k in e.modes && e.modes[k] == "audit")
    && exists i | 0 <= i < |items| :: items[i].kind != Unverifiable
                                      && (k == items[i].stateKey || k in items[i].coproprietaires)
  }

  /** What a drift correction leaves recorded, in plain words. */
  lemma EcartsOublies(e: EtatScope, items: seq<DriftItem>)
    ensures var f := ApresEcarts(e, items);
            && (forall k :: k in f.modules <==> k in e.modules && !ARemettre(e, items, k))
            && (forall k | k in f.modules :: f.modules[k] == e.modules[k])
            && f.fingerprint == (if exists k :: ARemettre(e, items, k) then "" else e.fingerprint)
            && f == e.(modules := f.modules, fingerprint := f.fingerprint)
  {
    forall k ensures k in Corriges(e, items) <==> ARemettre(e, items, k) {
      if ARemettre(e, items, k) {
        var i :| 0 <= i < |items| && items[i].kind != Unverifiable
                 && (k == items[i].stateKey || k in items[i].coproprietaires);
        assert k in Repondants(items[i]) && Repond(items[i], k) && ModuleMode(e, k) != Audit;
      }
      if k in Corriges(e, items) {
        var i :| 0 <= i < |items| && k in Repondants(items[i]) && Repond(items[i], k) && ModuleMode(e, k) != Audit;
        assert items[i].kind != Unverifiable && (k == items[i].stateKey || k in items[i].coproprietaires);
      }
    }
  }

  // --- the engine -----------------------------------------------------------------

  method Lister(s: set<string>) returns (l: seq<string>)
    ensures l == Canon(s)
  {
    l := [];
    var reste := s;
    while reste != {}
      invariant reste <= s
      invariant forall x :: x in l <==> x in s && x !in reste
      invariant forall i, j | 0 <= i < j < |l| :: l[i] != l[j]
    {
      var x :| x in reste;
      l, reste := l + [x], reste - {x};
    }
    TrierCanon(l);
    assert Elements(l) == s;
    l := Trier(l);
  }

  class DriftReport {
    var checked: nat
    var items: seq<DriftItem>

    constructor ()
      ensures checked == 0 && items == []
    {
      checked, items := 0, [];
    }

    /** `scanFromState`: expectations first, then files, each in sorted order. */
    method ScanFromState(e: EtatScope, d: Contenu, v: Verificateurs)
      modifies this
      ensures items == old(items) + Scan(e, d, v)
      ensures checked == old(checked) + |e.checks| + |e.files|
    {
      hide ScanAttentes, ScanFichiers;
      var verifs := ScanAllChecks(e, v);
      checked := checked + |e.checks|;
      items := items + verifs;
      var suite := ScanAllFiles(e, d);
      checked := checked + |e.files|;
      assert items + suite == old(items) + (verifs + suite);
      items := items + suite;
    }

    /** `marquerLesNonCorriges`: flags, in place, the items nobody will correct. */
    method MarquerLesNonCorriges(e: EtatScope)
      modifies this`items
      ensures |items| == |old(items)|
      ensures forall i | 0 <= i < |items| :: items[i] == Marque(e, old(items)[i])
    {
      for i := 0 to |items|
        invariant |items| == |old(items)|
        invariant forall j | 0 <= j < |items| :: items[j] == if j < i then Marque(e, old(items)[j]) else old(items)[j]
      {
        var item := items[i];
        if item.kind == Unverifiable || item.kind == Unreadable { continue; }
        var tousEnAudit := ResponsablesEnAudit(e, item);
        items := items[i := item.(nonCorrige := tousEnAudit)];
      }
    }

    /** `ModulesConcerned`: without repetition, sorted. */
    method ModulesConcerned() returns (keys: seq<Cle>)
      ensures Croissante(keys)
      ensures forall k :: k in keys <==> Concerne(items, k)
    {
      var vus: set<Cle> := {};
      for i := 0 to |items|
        invariant forall k :: k in vus <==> Concerne(items[..i], k)
      {
        var nouveaux := Responsables(items[i]);
        ConcerneSuivant(items, i);
        vus := vus + nouveaux;
      }
      assert items[..|items|] == items;
      DansCanon(vus);
      keys := Lister(vus);
    }
  }

  lemma ConcerneSuivant(items: seq<DriftItem>, i: nat)
    requires i < |items|
    ensures forall k :: Concerne(items[..i + 1], k) <==> Concerne(items[..i], k) || Repond(items[i], k)
  {
    forall k ensures Concerne(items[..i + 1], k) <==> Concerne(items[..i], k) || Repond(items[i], k) {
      assert items[..i + 1][i] == items[i];
      assert forall j | 0 <= j < i :: items[..i + 1][j] == items[..i][j];
    }
  }

  method Responsables(item: DriftItem) returns (r: set<Cle>)
    ensures forall k :: k in r <==> Repond(item, k)
  {
    r := {};
    if item.kind == Unverifiable { return; }
    var l := [item.stateKey] + item.coproprietaires;
    for j := 0 to |l|
      invariant forall k :: k in r <==> k != "" && k in l[..j]
    {
      assert l[..j + 1] == l[..j] + [l[j]];
      if l[j] != "" { r := r + {l[j]}; }
    }
    assert l[..|l|] == l;
  }

  method ResponsablesEnAudit(e: EtatScope, item: DriftItem) returns (r: bool)
    ensures r <==> ToutEnAudit(e, item)
  {
    var modules := [item.stateKey] + item.coproprietaires;
    var tousEnAudit, unModule := true, false;
    for j := 0 to |modules|
      invariant !unModule <==> Elements(modules[..j]) - {""} == {}
      invariant tousEnAudit <==> forall k | k in Elements(modules[..j]) - {""} :: ModuleMode(e, k) == Audit
    {
      assert modules[..j + 1] == modules[..j] + [modules[j]];
      assert Elements(modules[..j + 1]) == Elements(modules[..j]) + {modules[j]};
      if modules[j] == "" {
        assert Elements(modules[..j + 1]) - {""} == Elements(modules[..j]) - {""};
        continue;
      }
      unModule := true;
      assert modules[j] in Elements(modules[..j + 1]) - {""};
      if ModuleMode(e, modules[j]) != Audit { tousEnAudit := false; }
    }
    assert modules[..|modules|] == modules;
    r := unModule && tousEnAudit;
  }

  method ScanAllChecks(e: EtatScope, v: Verificateurs) returns (items: seq<DriftItem>)
    ensures items == ScanAttentes(e, v)
  {
    DansCanon(e.checks.Keys);
    var ids := Lister(e.checks.Keys);
    items := ScanChecks(e, ids, v);
  }

  method ScanAllFiles(e: EtatScope, d: Contenu) returns (items: seq<DriftItem>)
    ensures items == ScanFichiers(e, d)
  {
    DansCanon(e.files.Keys);
    var chemins := Lister(e.files.Keys);
    items := ScanFiles(e, chemins, d);
  }

  method ScanChecks(e: EtatScope, ids: seq<string>, v: Verificateurs) returns (items: seq<DriftItem>)
    requires forall id | id in ids :: id in e.checks
    ensures items == ScanIds(ids, e.checks, v)
  {
    items := [];
    for i := 0 to |ids|
      invariant items == ScanIds(ids[..i], e.checks, v)
    {
      assert ids[..i + 1][..i] == ids[..i];
      var attendu := e.checks[ids[i]];
      match v(attendu.objet)
      case Incertain => items := items + [Item(attendu.objet.target, attendu, Unverifiable)];
      case Ecart => items := items + [Item(attendu.objet.target, attendu, SystemState)];
      case _ => assert items == items + [];
    }
    assert ids[..|ids|] == ids;
  }

  method ScanFiles(e: EtatScope, chemins: seq<Chemin>, d: Contenu) returns (items: seq<DriftItem>)
    requires forall p | p in chemins :: p in e.files
    ensures items == ScanChemins(chemins, e.files, d)
  {
    items := [];
    for i := 0 to |chemins|
      invariant items == ScanChemins(chemins[..i], e.files, d)
    {
      assert chemins[..i + 1][..i] == chemins[..i];
      assert items == items + [];
      var path := chemins[i];
      var attendu := e.files[path];
      var n := En(d, path);
      if attendu.objet.Retire? {
        if !n.Vide? && !n.Inconstatable? { items := items + [Item(path, attendu, Reappeared)]; }
        continue;
      }
      if n.Vide? || n.LienCasse? { items := items + [Item(path, attendu, Missing)]; continue; }
      if n.Inconstatable? || n.Illisible? { items := items + [Item(path, attendu, Unreadable)]; continue; }
      if SHA256(n.contenu) != attendu.objet.somme { items := items + [Item(path, attendu, Modified)]; continue; }
      if attendu.objet.mode != 0 && n.mode != attendu.objet.mode { items := items + [Item(path, attendu,
          Permissions)]; }
    }
    assert chemins[..|chemins|] == chemins;
  }

  /** `partitionByMode` */
  method PartitionByMode(e: EtatScope, modules: seq<Cle>) returns (corriges: seq<Cle>, audites: seq<Cle>)
    ensures forall k :: k in corriges <==> k in modules && ModuleMode(e, k) != Audit
    ensures forall k :: k in audites <==> k in modules && ModuleMode(e, k) == Audit
  {
    corriges, audites := [], [];
    for i := 0 to |modules|
      invariant forall k :: k in corriges <==> k in modules[..i] && ModuleMode(e, k) != Audit
      invariant forall k :: k in audites <==> k in modules[..i] && ModuleMode(e, k) == Audit
    {
      assert modules[..i + 1] == modules[..i] + [modules[i]];
      if ModuleMode(e, modules[i]) == Audit { audites := audites + [modules[i]]; continue; }
      corriges := corriges + [modules[i]];
    }
    assert modules[..|modules|] == modules;
  }

  method OublierTous(s: ScopeState, cles: seq<Cle>)
    modifies s`modules
    ensures s.Valeur() == Oublier(old(s.Valeur()), Elements(cles))
  {
    for i := 0 to |cles|
      invariant s.Valeur() == Oublier(old(s.Valeur()), Elements(cles[..i]))
    {
      assert cles[..i + 1] == cles[..i] + [cles[i]];
      s.ForgetModule(cles[i]);
    }
    assert cles[..|cles|] == cles;
  }

  /** `EnforceDrift`: nothing is written unless some enforce module drifted. */
  method EnforceDrift(depot: Depot, portee: Portee, report: DriftReport) returns (n: nat)
    modifies depot
    ensures depot.incidents >= old(depot.incidents)
    ensures AutresPortees(old(depot.enregistre), depot.enregistre, portee)
    ensures n == 0 ==> depot.enregistre == old(depot.enregistre)
    ensures n > 0 ==>
              && portee in old(depot.enregistre)
              && portee in depot.enregistre
              && depot.enregistre[portee] == ApresEcarts(old(depot.enregistre)[portee], report.items)
              && Corriges(old(depot.enregistre)[portee], report.items) != {}
    ensures depot.incidents == old(depot.incidents) && portee in old(depot.enregistre) ==>
              depot.enregistre == old(depot.enregistre)[portee := ApresEcarts(old(depot.enregistre)[portee],
                  report.items)]
  {
    hide Concerne, Repond, Corriges, ApresEcarts, Oublier, ModuleMode;
    ghost var e := if portee in depot.enregistre then depot.enregistre[portee] else EtatScope("", 0, "", map[], map[],
        map[], map[], 0);
    var modules := report.ModulesConcerned();
    CorrigesVides(e, report.items, modules);
    if |report.items| == 0 { return 0; }
    if |modules| == 0 { return 0; }
    var lu := depot.LoadState();
    if portee !in lu { return 0; }
    var corriges, _ := PartitionByMode(lu[portee], modules);
    CorrigesSontConcernes(lu[portee], report.items, corriges);
    if |corriges| == 0 { return 0; }
    var s := new ScopeState(lu[portee]);
    OublierTous(s, corriges);
    s.fingerprint := "";
    ApresEcartsEst(lu[portee], report.items, s.Valeur());
    var ok := depot.SaveScopeState(portee, s);
    if !ok { return 0; }
    return |corriges|;
  }

  lemma CorrigesVides(e: EtatScope, items: seq<DriftItem>, modules: seq<Cle>)
    requires forall k :: k in modules <==> Concerne(items, k)
    ensures |items| == 0 || |modules| == 0 ==> ApresEcarts(e, items) == e
  {
    hide ModuleMode;
    if |items| == 0 || |modules| == 0 {
      forall k ensures k !in Corriges(e, items) { assert k !in modules || !Concerne(items, k) || |items| == 0; }
    }
  }

  lemma ApresEcartsEst(e: EtatScope, items: seq<DriftItem>, f: EtatScope)
    requires Corriges(e, items) != {} && f == Oublier(e, Corriges(e, items)).(fingerprint := "")
    ensures f == ApresEcarts(e, items)
  {
  }

  lemma CorrigesSontConcernes(e: EtatScope, items: seq<DriftItem>, corriges: seq<Cle>)
    requires forall k :: k in corriges <==> Concerne(items, k) && ModuleMode(e, k) != Audit
    ensures Elements(corriges) == Corriges(e, items)
    ensures |corriges| > 0 <==> Corriges(e, items) != {}
    ensures |corriges| == 0 ==> ApresEcarts(e, items) == e
  {
    hide ModuleMode, Oublier;
    forall k ensures k in Elements(corriges) <==> k in Corriges(e, items) {
      if k in corriges {
        var i :| 0 <= i < |items| && Repond(items[i], k);
      }
    }
    ElementsVide(corriges);
  }
}
