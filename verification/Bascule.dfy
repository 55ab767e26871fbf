/** The five-file switch of an update and its way back (bascule.go). */
module Bascule {
  import opened Options
  import opened Sante

  /** Files of the system, of the directory `precedent`, of the directory `nouveau`. */
  datatype Chemin = Systeme(nom: string) | Precedent(nom: string) | Nouveau(nom: string)

  /** SHA-256 taken as an injective identifier of the content. */
  datatype Empreinte = SHA256(contenu: string)

  datatype FichierPlan = FichierPlan(nom: string, source: Chemin, destination: Chemin, sha256: Empreinte)
  datatype Plan = Plan(fichiers: seq<FichierPlan>, unite: Chemin)

  datatype Resultat = Installe | Echec | Refuse

  /** What made the machine go back, and how the way back ended. */
  datatype Cause = UniteNonEcrite | RedemarrageRefuse | PorteRefusee
  datatype Suite = Incomplet | Tient | NeTientPas

  /** The reason given with the result.  `BasculeRatee` is the one that says "nothing has changed"
      (bascule.go:129-133). */
  datatype Motif =
    | SourceModifiee(nom: string)
    | GardeImpossible
    | VersionIncomplete
    | BasculeRatee(nom: string)
    | RevenueEnArriere(cause: Cause, suite: Suite)
    | PorteFranchie

  function ResultatDe(motif: Motif): Resultat {
    match motif
    case SourceModifiee(_) => Refuse
    case VersionIncomplete => Refuse
    case PorteFranchie => Installe
    case _ => Echec
  }

  const UNITE_GARDEE := Precedent("unite.service")

  /** Distinct names, none of them that of the kept unit, distinct destinations in the system, apart from
      the sources and from the unit. */
  ghost predicate PlanSain(p: Plan) {
    && p.unite.Systeme?
    && (forall i | 0 <= i < |p.fichiers| ::
          p.fichiers[i].destination.Systeme? && p.fichiers[i].destination != p.unite
          && Precedent(p.fichiers[i].nom) != UNITE_GARDEE && !p.fichiers[i].source.Precedent?)
    && (forall i, j | 0 <= i < |p.fichiers| && 0 <= j < |p.fichiers| ::
        p.fichiers[i].source != p.fichiers[j].destination)
    && (forall i, j | 0 <= i < j < |p.fichiers| ::
          p.fichiers[i].destination != p.fichiers[j].destination && p.fichiers[i].nom != p.fichiers[j].nom)
  }

  type Fichiers = map<Chemin, string>

  function Lire(f: Fichiers, c: Chemin): Option<string> {
    if c in f then Some(f[c]) else None
  }

  ghost function Destinations(p: Plan, n: nat): set<Chemin>
    requires n <= |p.fichiers|
  {
    set i | 0 <= i < n :: p.fichiers[i].destination
  }

  lemma DestinationsSuivant(p: Plan, k: nat)
    requires k < |p.fichiers|
    ensures Destinations(p, k + 1) == Destinations(p, k) + {p.fichiers[k].destination}
  {
  }

  lemma DestinationsCroissent(p: Plan, k: nat)
    requires k <= |p.fichiers|
    ensures Destinations(p, k) <= Destinations(p, |p.fichiers|)
  {
  }

  // --- what an update leaves, on values --------------------------------------------------------

  /** `copier`: the destination is truncated before it is written, so a failure leaves it as it was or with
      anything in it. */
  ghost predicate Copie(avant: Fichiers, apres: Fichiers, src: Chemin, dst: Chemin, ok: bool) {
    if ok then src in avant && apres == avant[dst := avant[src]]
    else apres == avant || (src in avant && dst in apres && apres == avant[dst := apres[dst]])
  }

  ghost predicate SourceIntacte(p: Plan, f: Fichiers, i: nat)
    requires i < |p.fichiers|
  {
    p.fichiers[i].source in f && SHA256(f[p.fichiers[i].source]) == p.fichiers[i].sha256
  }

  ghost predicate SourcesIntactes(p: Plan, f: Fichiers) {
    forall i | 0 <= i < |p.fichiers| :: SourceIntacte(p, f, i)
  }

  /** The first `n` destinations hold what their sources held, and nothing else moved. */
  ghost predicate Poses(p: Plan, n: nat, avant: Fichiers, apres: Fichiers)
    requires n <= |p.fichiers|
  {
    && (forall i | 0 <= i < n ::
          p.fichiers[i].source in avant
          && Lire(apres, p.fichiers[i].destination) == Lire(avant, p.fichiers[i].source))
    && (forall c: Chemin | c !in Destinations(p, n) :: Lire(avant, c) == Lire(apres, c))
  }

  /** Every kept version is that of `avant`. */
  ghost predicate Gardes(p: Plan, n: nat, avant: Fichiers, f: Fichiers)
    requires n <= |p.fichiers|
  {
    forall i | 0 <= i < n ::
      Lire(avant, p.fichiers[i].destination).Some?
      && Lire(f, Precedent(p.fichiers[i].nom)) == Lire(avant, p.fichiers[i].destination)
  }

  /** Some copy of every file lies in `precedent`. */
  ghost predicate Gardees(p: Plan, f: Fichiers) {
    forall i | 0 <= i < |p.fichiers| :: Precedent(p.fichiers[i].nom) in f
  }

  /** The first `n` destinations have their kept version, except those whose write failed. */
  ghost predicate Remis(p: Plan, n: nat, avant: Fichiers, apres: Fichiers, ratees: set<Chemin>)
    requires n <= |p.fichiers|
  {
    forall i | 0 <= i < n ::
      Lire(apres, p.fichiers[i].destination)
      == Lire(avant, if p.fichiers[i].destination in ratees then p.fichiers[i].destination
                     else Precedent(p.fichiers[i].nom))
  }

  /** After an update that failed: every destination is as it was, except that those whose restoring write
      failed hold the content of their source. */
  ghost predicate Laisses(p: Plan, avant: Fichiers, apres: Fichiers, ratees: set<Chemin>) {
    forall i | 0 <= i < |p.fichiers| ::
      Lire(apres, p.fichiers[i].destination)
      == Lire(avant, if p.fichiers[i].destination in ratees then p.fichiers[i].source
                     else p.fichiers[i].destination)
  }

  ghost predicate SystemeIntact(avant: Fichiers, apres: Fichiers) {
    forall c: Chemin | c.Systeme? :: Lire(avant, c) == Lire(apres, c)
  }

  /** The unit after a way back: the copy that lies in `precedent`, if one does and could be put back, and
      otherwise what the new binary left. */
  ghost function UniteFinale(gardee: Option<string>, laissee: Option<string>, ratee: bool): Option<string> {
    if gardee.Some? && !ratee then gardee else laissee
  }

  /** One gate with its probe, then, after a way back that is complete, one without. */
  datatype Veille = Veille(porte: Deroule, milieu: seq<Fait>, retour: Deroule)

  ghost predicate Surveille(avant: seq<Fait>, apres: seq<Fait>, motif: Motif, v: Veille) {
    match motif
    case PorteFranchie => Porte(avant, apres, true, true, v.porte)
    case RevenueEnArriere(cause, suite) =>
      && (if cause == PorteRefusee then Porte(avant, v.milieu, true, false, v.porte) else v.milieu == avant)
      && (if suite == Incomplet then apres == v.milieu else Porte(v.milieu, apres, false, suite == Tient, v.retour))
    case _ => apres == avant
  }

  /** Every destination holds the content the plan names. */
  ghost predicate Installes(p: Plan, f: Fichiers) {
    forall i | 0 <= i < |p.fichiers| ::
      p.fichiers[i].destination in f && SHA256(f[p.fichiers[i].destination]) == p.fichiers[i].sha256
  }

  /** The machine an update leaves, as its reason says.  Crossed: the planned version, and the unit of the new
      binary.  Otherwise every destination is as it was, save those of `ratees`, which a way back owns up to;
      the unit is as it was, or, after a way back, the copy kept, if there is one.  A refusal touches nothing. */
  ghost predicate Issue(p: Plan, avant: Fichiers, apres: Fichiers, motif: Motif, ratees: set<Chemin>,
                        complete: bool, uniteLaissee: Option<string>)
  {
    && (forall c: Chemin | c.Systeme? && c !in Destinations(p, |p.fichiers|) && c != p.unite ::
          Lire(avant, c) == Lire(apres, c))
    && (motif == PorteFranchie ==> Installes(p, apres) && Lire(apres, p.unite) == uniteLaissee)
    && (motif != PorteFranchie ==> Laisses(p, avant, apres, ratees))
    && (motif.RevenueEnArriere? ==>
          && (motif.suite == Incomplet <==> ratees != {})
          && Lire(apres, p.unite) == UniteFinale(Lire(apres, UNITE_GARDEE), uniteLaissee, p.unite in ratees)
          && (complete ==> Lire(apres, UNITE_GARDEE) == Lire(avant, p.unite) && p.unite in avant))
    && (motif.BasculeRatee? ==> Lire(apres, p.unite) == Lire(avant, p.unite))
    && (ResultatDe(motif) == Refuse || motif == GardeImpossible ==> SystemeIntact(avant, apres))
  }

  lemma DestinationDe(p: Plan, n: nat, i: nat)
    requires PlanSain(p) && i < |p.fichiers| && n <= |p.fichiers|
    ensures p.fichiers[i].destination in Destinations(p, n) <==> i < n
    ensures p.fichiers[i].source !in Destinations(p, n) && Precedent(p.fichiers[i].nom) !in Destinations(p, n)
    ensures p.unite !in Destinations(p, n) && UNITE_GARDEE !in Destinations(p, n)
  {
  }

  /** Keep, switch `n` files, put them back: only the writes that failed on the way back show. */
  lemma AllerRetour(p: Plan, n: nat, avant: Fichiers, garde: Fichiers, bascule: Fichiers, apres: Fichiers,
                    ratees: set<Chemin>)
    requires PlanSain(p) && n <= |p.fichiers|
    requires forall c: Chemin | !c.Precedent? :: Lire(avant, c) == Lire(garde, c)
    requires Gardes(p, |p.fichiers|, avant, garde) && Poses(p, n, garde, bascule)
    requires Remis(p, n, bascule, apres, ratees) && ratees <= Destinations(p, n) + {p.unite}
    requires forall c: Chemin | c !in Destinations(p, n) && c != p.unite :: Lire(bascule, c) == Lire(apres, c)
    ensures Laisses(p, avant, apres, ratees)
  {
    forall i | 0 <= i < |p.fichiers|
      ensures Lire(apres, p.fichiers[i].destination)
           == Lire(avant, if p.fichiers[i].destination in ratees then p.fichiers[i].source
                          else p.fichiers[i].destination)
    {
      hide Lire, Destinations;
      var d, g := p.fichiers[i].destination, Precedent(p.fichiers[i].nom);
      DestinationDe(p, n, i);
      if i < n {
        assert Lire(bascule, d) == Lire(garde, p.fichiers[i].source) == Lire(avant, p.fichiers[i].source);
        assert Lire(garde, g) == Lire(bascule, g);
      } else {
        assert Lire(garde, d) == Lire(bascule, d) == Lire(apres, d);
      }
    }
  }

  /** When is "nothing has changed" true?  Exactly when every file that could not be put back already had the
      content the update brought. */
  lemma RienNaChange(p: Plan, avant: Fichiers, apres: Fichiers, ratees: set<Chemin>)
    requires PlanSain(p) && Laisses(p, avant, apres, ratees)
    requires forall c: Chemin | c.Systeme? && c !in Destinations(p, |p.fichiers|) :: Lire(avant, c) == Lire(apres, c)
    ensures SystemeIntact(avant, apres)
        <==> forall i | 0 <= i < |p.fichiers| && p.fichiers[i].destination in ratees ::
               Lire(avant, p.fichiers[i].source) == Lire(avant, p.fichiers[i].destination)
  {
    if forall i | 0 <= i < |p.fichiers| && p.fichiers[i].destination in ratees ::
        Lire(avant, p.fichiers[i].source) == Lire(avant, p.fichiers[i].destination)
    {
      forall c: Chemin | c.Systeme? ensures Lire(avant, c) == Lire(apres, c) {
        if c in Destinations(p, |p.fichiers|) {
          var i :| 0 <= i < |p.fichiers| && c == p.fichiers[i].destination;
        }
      }
    } else {
      var i :| 0 <= i < |p.fichiers| && p.fichiers[i].destination in ratees
               && Lire(avant, p.fichiers[i].source) != Lire(avant, p.fichiers[i].destination);
      assert Lire(avant, p.fichiers[i].destination) != Lire(apres, p.fichiers[i].destination);
    }
  }

  /** Two files, the second cannot be switched and the first cannot be put back: the reason says that nothing
      has changed, and the first file is the new one. */
  lemma RienNaChangeMent() returns (p: Plan, avant: Fichiers, apres: Fichiers, ratees: set<Chemin>)
    ensures PlanSain(p) && SourcesIntactes(p, avant) && Laisses(p, avant, apres, ratees)
    ensures |p.fichiers| == 2 && Poses(p, 1, avant, apres) && ratees == {p.fichiers[0].destination}
    ensures !SystemeIntact(avant, apres)
  {
    var agent := FichierPlan("agent", Nouveau("agent"), Systeme("agent"), SHA256("2"));
    var pam := FichierPlan("pam", Nouveau("pam"), Systeme("pam"), SHA256("2"));
    p := Plan([agent, pam], Systeme("unite"));
    avant := map[Nouveau("agent") := "2", Nouveau("pam") := "2", Systeme("agent") := "1", Systeme("pam") := "1"];
    apres := avant[Systeme("agent") := "2"];
    ratees := {Systeme("agent")};
    assert p.fichiers[0].destination in Destinations(p, 1);
    assert Lire(avant, Systeme("agent")) != Lire(apres, Systeme("agent"));
  }

  /** The way back gives the unit back, or its absence, exactly when the copy succeeded, or what lies in
      `precedent` has its content, or nothing lies there and the new binary wrote the same unit. */
  lemma UniteRendue(unite: Chemin, avant: Fichiers, garde: Fichiers, ok: bool, laissee: Option<string>)
    requires unite != UNITE_GARDEE && Copie(avant, garde, unite, UNITE_GARDEE, ok)
    ensures UniteFinale(Lire(garde, UNITE_GARDEE), laissee, false) == Lire(avant, unite)
        <==> ok || (UNITE_GARDEE in garde && Lire(garde, UNITE_GARDEE) == Lire(avant, unite))
             || (UNITE_GARDEE !in garde && laissee == Lire(avant, unite))
    ensures ok ==> Lire(garde, UNITE_GARDEE) == Lire(avant, unite)
  {
  }

  /** A copy that fails half way: the part it wrote becomes the unit, although every write of the way back
      succeeds. */
  lemma UniteTronquee() returns (unite: Chemin, avant: Fichiers, garde: Fichiers)
    ensures unite in avant && Copie(avant, garde, unite, UNITE_GARDEE, false)
    ensures forall laissee: Option<string> ::
              UniteFinale(Lire(garde, UNITE_GARDEE), laissee, false) != Lire(avant, unite)
  {
    unite := Systeme("unite");
    avant := map[unite := "[Service]"];
    garde := avant[UNITE_GARDEE := "[Ser"];
    assert garde == avant[UNITE_GARDEE := garde[UNITE_GARDEE]];
    assert |"[Ser"| != |"[Service]"|;
  }

  /** A copy of an earlier update that could not be removed, and a copy that cannot be opened: the unit of
      that update comes back. */
  lemma UnitePerimee() returns (unite: Chemin, avant: Fichiers, garde: Fichiers)
    ensures unite in avant && UNITE_GARDEE in avant && Copie(avant, garde, unite, UNITE_GARDEE, false)
    ensures forall laissee: Option<string> ::
              UniteFinale(Lire(garde, UNITE_GARDEE), laissee, false) != Lire(avant, unite)
  {
    unite := Systeme("unite");
    avant := map[unite := "2", UNITE_GARDEE := "1"];
    garde := avant;
  }

  /** The switch failed at the file of this name: only those before it had to be put back. */
  ghost predicate BasculeRateeEn(p: Plan, nom: string, ratees: set<Chemin>) {
    exists k | 0 <= k < |p.fichiers| :: nom == p.fichiers[k].nom && ratees <= Destinations(p, k)
  }

  lemma RateeEn(p: Plan, k: nat, ratees: set<Chemin>)
    requires k < |p.fichiers| && ratees <= Destinations(p, k)
    ensures BasculeRateeEn(p, p.fichiers[k].nom, ratees)
  {
  }

  /** The commands of an update, in their order and with their results. */
  datatype Ordre = CreerDossier | Etiqueter | EcrireUnite | OublierEchecs | Relancer | RelireUnites
  datatype Appel = Appel(ordre: Ordre, ok: bool)

  const ALLER := [EcrireUnite, OublierEchecs, Relancer]
  const RETOUR := [Etiqueter, RelireUnites, OublierEchecs, Relancer]

  ghost predicate Appeles(a: seq<Appel>, o: seq<Ordre>) {
    |a| == |o| && forall i | 0 <= i < |o| :: a[i].ordre == o[i]
  }

  /** From the unit on: which step failed, if one did, is what the cause says. */
  ghost predicate AppelsRedemarrage(motif: Motif, a: seq<Appel>) {
    match motif
    case PorteFranchie => Appeles(a, ALLER) && a[0].ok && a[2].ok
    case RevenueEnArriere(UniteNonEcrite, _) => Appeles(a, [EcrireUnite] + RETOUR) && !a[0].ok
    case RevenueEnArriere(RedemarrageRefuse, _) => Appeles(a, ALLER + RETOUR) && a[0].ok && !a[2].ok
    case RevenueEnArriere(PorteRefusee, _) => Appeles(a, ALLER + RETOUR) && a[0].ok && a[2].ok
    case _ => false
  }

  /** The commands of a whole update, as its reason says. */
  ghost predicate AppelsDe(motif: Motif, a: seq<Appel>) {
    match motif
    case SourceModifiee(_) => a == []
    case GardeImpossible => a == [Appel(CreerDossier, false)]
    case VersionIncomplete => a == [Appel(CreerDossier, true)]
    case BasculeRatee(_) => a == [Appel(CreerDossier, true)]
    case _ => |a| >= 2 && a[0] == Appel(CreerDossier, true) && a[1].ordre == Etiqueter
              && AppelsRedemarrage(motif, a[2..])
  }

  lemma AppelsRetour(motif: Motif, a: seq<Appel>, r: seq<Appel>)
    requires motif.RevenueEnArriere? && AppelsAller(motif.cause, a) && Appeles(r, RETOUR)
    ensures AppelsRedemarrage(motif, a + r)
  {
    assert forall i | 0 <= i < |r| :: (a + r)[|a| + i] == r[i];
  }

  ghost predicate AppelsAller(cause: Cause, a: seq<Appel>) {
    if cause == UniteNonEcrite then a == [Appel(EcrireUnite, false)]
    else Appeles(a, ALLER) && a[0].ok && (cause == PorteRefusee <==> a[2].ok)
  }

  lemma QuatreAppels(depart: seq<Appel>, a: seq<Appel>, e: bool, r: bool, o: bool, l: bool)
    requires a == depart + [Appel(Etiqueter, e)] + [Appel(RelireUnites, r)] + [Appel(OublierEchecs, o)]
                  + [Appel(Relancer, l)]
    ensures depart <= a && Appeles(a[|depart|..], RETOUR)
  {
  }

  lemma UnAppel(depart: seq<Appel>, a: seq<Appel>, ecrite: bool)
    requires a == depart + [Appel(EcrireUnite, ecrite)]
    ensures depart <= a && (!ecrite ==> AppelsAller(UniteNonEcrite, a[|depart|..]))
  {
  }

  lemma TroisAppels(depart: seq<Appel>, a: seq<Appel>, oublies: bool, relance: bool)
    requires a == depart + [Appel(EcrireUnite, true)] + [Appel(OublierEchecs, oublies)] + [Appel(Relancer, relance)]
    ensures depart <= a && AppelsAller(if relance then PorteRefusee else RedemarrageRefuse, a[|depart|..])
    ensures relance ==> AppelsRedemarrage(PorteFranchie, a[|depart|..])
  {
    assert a[|depart|..] == [Appel(EcrireUnite, true), Appel(OublierEchecs, oublies), Appel(Relancer, relance)];
  }

  lemma AllerPuisRetour(motif: Motif, depart: seq<Appel>, aller: seq<Appel>, a: seq<Appel>)
    requires motif.RevenueEnArriere? && depart <= aller <= a
    requires AppelsAller(motif.cause, aller[|depart|..]) && Appeles(a[|aller|..], RETOUR)
    ensures AppelsRedemarrage(motif, a[|depart|..])
  {
    hide Appeles, AppelsAller, AppelsRedemarrage;
    AppelsRetour(motif, aller[|depart|..], a[|aller|..]);
    assert a[|depart|..] == aller[|depart|..] + a[|aller|..];
  }

  lemma AppelsArret(motif: Motif, depart: seq<Appel>, a: seq<Appel>)
    requires motif.SourceModifiee? || motif in {GardeImpossible, VersionIncomplete} || motif.BasculeRatee?
    requires a == depart + (if motif.SourceModifiee? then [] else [Appel(CreerDossier, motif != GardeImpossible)])
    ensures depart <= a && AppelsDe(motif, a[|depart|..])
  {
  }

  lemma AppelsEntiers(motif: Motif, depart: seq<Appel>, a: seq<Appel>, etiquetees: bool, r: seq<Appel>)
    requires motif == PorteFranchie || motif.RevenueEnArriere?
    requires AppelsRedemarrage(motif, r)
    requires a == depart + [Appel(CreerDossier, true)] + [Appel(Etiqueter, etiquetees)] + r
    ensures depart <= a && AppelsDe(motif, a[|depart|..])
  {
    var s := a[|depart|..];
    assert s == [Appel(CreerDossier, true), Appel(Etiqueter, etiquetees)] + r;
    assert s[2..] == r;
  }

  /** Every file of the plan has a version in place. */
  ghost predicate Complete(p: Plan, f: Fichiers) {
    forall i | 0 <= i < |p.fichiers| :: p.fichiers[i].destination in f
  }

  /** Where an update ends when every operation on an existing file, and every command, succeeds: a source that is
      not the planned one, then a destination that is missing, stop it; nothing else keeps it from its gate, and a
      gate that refuses is followed by a way back that puts everything back. */
  ghost predicate SansPanne(p: Plan, avant: Fichiers, motif: Motif) {
    && (motif.SourceModifiee? <==> !SourcesIntactes(p, avant))
    && (motif == VersionIncomplete <==> SourcesIntactes(p, avant) && !Complete(p, avant))
    && (SourcesIntactes(p, avant) && Complete(p, avant) ==>
          motif == PorteFranchie
          || (motif.RevenueEnArriere? && motif.cause == PorteRefusee && motif.suite != Incomplet))
  }

  /** The files, where every operation may fail; and the lock of the update.  Five histories are kept for the
      statements: which files could not be given their kept version back during this update, which hold a
      complete copy, the unit the new binary left, the commands called, and how many operations failed without a
      missing file to explain it, those whose result is ignored apart. */
  class Machine {
    var fichiers: Fichiers
    var verrou: bool
    ghost var ratees: set<Chemin>
    ghost var completes: set<Chemin>
    ghost var uniteLaissee: Option<string>
    ghost var incidents: nat
    ghost var appels: seq<Appel>

    constructor (f: Fichiers)
      ensures fichiers == f && verrou && ratees == {} && completes == {} && incidents == 0 && appels == []
    {
      fichiers, verrou, ratees, completes, uniteLaissee, incidents, appels := f, true, {}, {}, None, 0, [];
    }

    /** sommeDe: the content may be unreadable. */
    method Somme(c: Chemin) returns (ok: bool, s: Empreinte)
      modifies this`incidents
      ensures ok ==> c in fichiers && s == SHA256(fichiers[c])
      ensures incidents == old(incidents) + (if !ok && c in fichiers then 1 else 0)
    {
      ok, s := false, SHA256("");
      var lisible: bool := *;
      if c in fichiers && lisible { ok, s := true, SHA256(fichiers[c]); }
      incidents := incidents + (if !ok && c in fichiers then 1 else 0);
    }

    /** `poser`: a temporary file next to the destination, then a rename: all or nothing.  From `precedent` it
        restores. */
    method Poser(src: Chemin, dst: Chemin) returns (ok: bool)
      modifies this`fichiers, this`ratees, this`incidents
      ensures incidents == old(incidents) + (if !ok && src in old(fichiers) then 1 else 0)
      ensures ratees == if src.Precedent? && !ok then old(ratees) + {dst} else old(ratees)
      ensures ok ==> src in old(fichiers) && fichiers == old(fichiers)[dst := old(fichiers)[src]]
      ensures !ok ==> fichiers == old(fichiers)
    {
      ok := *;
      if src !in fichiers { ok := false; }
      incidents := incidents + (if !ok && src in fichiers then 1 else 0);
      if ok {
        fichiers := fichiers[dst := fichiers[src]];
      } else if src.Precedent? {
        ratees := ratees + {dst};
      }
    }

    method Copier(src: Chemin, dst: Chemin) returns (ok: bool)
      modifies this`fichiers, this`completes, this`incidents
      ensures incidents == old(incidents) + (if !ok && src in old(fichiers) then 1 else 0)
      ensures completes == if ok then old(completes) + {dst} else old(completes) - {dst}
      ensures Copie(old(fichiers), fichiers, src, dst, ok)
    {
      ok, completes := false, completes - {dst};
      if src !in fichiers { return; }
      var ouvert: bool := *;
      if ouvert { ok := *; }
      if ok { completes := completes + {dst}; } else { incidents := incidents + 1; }
      if !ouvert { return; }
      var partiel: string :| true;
      fichiers := fichiers[dst := if ok then fichiers[src] else partiel];
    }

    /** os.RemoveAll on `precedent`, error ignored: anything may be left there. */
    method ViderPrecedent()
      modifies this`fichiers
      ensures forall c: Chemin | !c.Precedent? :: Lire(old(fichiers), c) == Lire(fichiers, c)
    {
      var restes: set<Chemin> :| true;
      fichiers := fichiers - (set c | c in fichiers && c.Precedent? && c !in restes);
    }

    method ViderNouveau()
      modifies this`fichiers
      ensures forall c: Chemin | !c.Nouveau? :: Lire(old(fichiers), c) == Lire(fichiers, c)
    {
      var restes: set<Chemin> :| true;
      fichiers := fichiers - (set c | c in fichiers && c.Nouveau? && c !in restes);
    }

    /** A command that touches no file of the plan. */
    method Commande(o: Ordre) returns (ok: bool)
      modifies this`incidents, this`appels
      ensures incidents == old(incidents) + (if ok || o !in {CreerDossier, Relancer} then 0 else 1)
      ensures appels == old(appels) + [Appel(o, ok)]
    {
      ok := *;
      incidents := incidents + (if ok || o !in {CreerDossier, Relancer} then 0 else 1);
      appels := appels + [Appel(o, ok)];
    }

    /** The new binary writes the unit, successfully or not. */
    method InstallerUnite(p: Plan) returns (ok: bool)
      modifies this`fichiers, this`uniteLaissee, this`incidents, this`appels
      ensures incidents == old(incidents) + (if ok then 0 else 1)
      ensures appels == old(appels) + [Appel(EcrireUnite, ok)]
      ensures forall c: Chemin | c != p.unite :: Lire(old(fichiers), c) == Lire(fichiers, c)
      ensures uniteLaissee == Lire(fichiers, p.unite)
    {
      ok := *;
      var ecrite: bool := *;
      var contenu: string :| true;
      if ecrite { fichiers := fichiers[p.unite := contenu]; }
      uniteLaissee := Lire(fichiers, p.unite);
      incidents := incidents + (if ok then 0 else 1);
      appels := appels + [Appel(EcrireUnite, ok)];
    }

    // --- the switch ------------------------------------------------------------------

    /** Step 0: are the sources still those the agent checked? */
    method VerifierSources(p: Plan) returns (mauvaise: Option<string>)
      modifies this`incidents
      ensures incidents >= old(incidents)
      ensures mauvaise.None? ==> SourcesIntactes(p, fichiers)
      ensures mauvaise.Some? ==>
                exists i | 0 <= i < |p.fichiers| && mauvaise == Some(p.fichiers[i].nom) ::
                  incidents > old(incidents) || !SourceIntacte(p, fichiers, i)
    {
      for k := 0 to |p.fichiers|
        invariant incidents >= old(incidents)
        invariant forall i | 0 <= i < k ::
                    p.fichiers[i].source in fichiers && SHA256(fichiers[p.fichiers[i].source]) == p.fichiers[i].sha256
      {
        var lu, s := Somme(p.fichiers[k].source);
        if !lu || s != p.fichiers[k].sha256 {
          assert incidents > old(incidents) || !SourceIntacte(p, fichiers, k);
          return Some(p.fichiers[k].nom);
        }
      }
      return None;
    }

    /** Step 1: keep the version in place; a destination that cannot be kept stops everything. */
    method GarderTout(p: Plan) returns (ok: bool)
      requires PlanSain(p)
      modifies this`fichiers, this`completes, this`incidents
      ensures incidents >= old(incidents)
      ensures !ok && incidents == old(incidents) ==> !Complete(p, old(fichiers))
      ensures forall c: Chemin | !c.Precedent? :: Lire(old(fichiers), c) == Lire(fichiers, c)
      ensures ok ==> Gardes(p, |p.fichiers|, old(fichiers), fichiers)
    {
      for k := 0 to |p.fichiers|
        invariant incidents >= old(incidents)
        invariant forall c: Chemin | !c.Precedent? :: Lire(old(fichiers), c) == Lire(fichiers, c)
        invariant Gardes(p, k, old(fichiers), fichiers)
      {
        assert Lire(old(fichiers), p.fichiers[k].destination) == Lire(fichiers, p.fichiers[k].destination);
        var copie := Copier(p.fichiers[k].destination, Precedent(p.fichiers[k].nom));
        if !copie { return false; }
      }
      return true;
    }

    /** Step 2: the switch, file by file, up to the first failure. */
    method BasculerTout(p: Plan) returns (poses: nat)
      requires PlanSain(p)
      modifies this`fichiers, this`ratees, this`incidents
      ensures poses <= |p.fichiers| && ratees == old(ratees) && incidents >= old(incidents)
      ensures poses < |p.fichiers| && incidents == old(incidents) ==>
                p.fichiers[poses].source !in old(fichiers)
      ensures Poses(p, poses, old(fichiers), fichiers)
    {
      poses := 0;
      while poses < |p.fichiers|
        invariant poses <= |p.fichiers| && ratees == old(ratees) && incidents >= old(incidents)
        invariant Poses(p, poses, old(fichiers), fichiers)
      {
        DestinationsSuivant(p, poses);
        DestinationDe(p, poses, poses);
        assert Lire(old(fichiers), p.fichiers[poses].source) == Lire(fichiers, p.fichiers[poses].source);
        var ok := Poser(p.fichiers[poses].source, p.fichiers[poses].destination);
        if !ok { return; }
        poses := poses + 1;
      }
    }

    /** `remettre`: gives its kept version back to each of the first `n` files, going on past a failure. */
    method Remettre(p: Plan, n: nat) returns (echecs: nat)
      requires PlanSain(p) && n <= |p.fichiers| && ratees == {}
      modifies this`fichiers, this`ratees, this`incidents
      ensures incidents >= old(incidents)
      ensures incidents == old(incidents) && Gardees(p, old(fichiers)) ==> ratees == {}
      ensures echecs == 0 <==> ratees == {}
      ensures ratees <= Destinations(p, n) && Remis(p, n, old(fichiers), fichiers, ratees)
      ensures forall c: Chemin | c !in Destinations(p, n) :: Lire(old(fichiers), c) == Lire(fichiers, c)
    {
      echecs := 0;
      for k := 0 to n
        invariant incidents >= old(incidents)
        invariant incidents == old(incidents) && Gardees(p, old(fichiers)) ==> ratees == {}
        invariant echecs == 0 <==> ratees == {}
        invariant ratees <= Destinations(p, k) && Remis(p, k, old(fichiers), fichiers, ratees)
        invariant forall c: Chemin | c !in Destinations(p, k) :: Lire(old(fichiers), c) == Lire(fichiers, c)
      {
        DestinationsSuivant(p, k);
        DestinationDe(p, k, k);
        ghost var avant, deja, g := fichiers, ratees, Precedent(p.fichiers[k].nom);
        assert Lire(old(fichiers), g) == Lire(fichiers, g);
        var ok := Poser(Precedent(p.fichiers[k].nom), p.fichiers[k].destination);
        if !ok { echecs := echecs + 1; }
        RemisEncore(p, k, old(fichiers), avant, fichiers, deja, ratees);
      }
    }

    /** `retourArriere`: the files, the unit if some copy of it is there, and a gate without probe. */
    method RetourArriere(p: Plan, m: Monde, cause: Cause) returns (motif: Motif, ghost retour: Deroule)
      requires PlanSain(p) && ratees == {}
      modifies this`fichiers, this`ratees, this`incidents, this`appels, m
      ensures incidents >= old(incidents)
      ensures old(appels) <= appels && Appeles(appels[|old(appels)|..], RETOUR)
      ensures incidents == old(incidents) && Gardees(p, old(fichiers)) ==> ratees == {}
      ensures motif.RevenueEnArriere? && motif.cause == cause
      ensures motif.suite == Incomplet <==> ratees != {}
      ensures motif.suite == Incomplet ==> m.journal == old(m.journal)
      ensures motif.suite != Incomplet ==> Porte(old(m.journal), m.journal, false, motif.suite == Tient, retour)
      ensures ratees <= Destinations(p, |p.fichiers|) + {p.unite}
      ensures Remis(p, |p.fichiers|, old(fichiers), fichiers, ratees)
      ensures Lire(fichiers, p.unite)
           == UniteFinale(Lire(old(fichiers), UNITE_GARDEE), Lire(old(fichiers), p.unite), p.unite in ratees)
      ensures forall c: Chemin | c !in Destinations(p, |p.fichiers|) && c != p.unite ::
          Lire(old(fichiers), c) == Lire(fichiers, c)
    {
      hide Porte, Appeles, Remis;
      ghost var depart := appels;
      retour := Deroule([], 0, 0);
      var echecs := Remettre(p, |p.fichiers|);
      ghost var remis, deja := fichiers, ratees;
      UniteAPart(p);
      assert Lire(fichiers, UNITE_GARDEE) == Lire(old(fichiers), UNITE_GARDEE);
      if UNITE_GARDEE in fichiers {
        var ok := Poser(UNITE_GARDEE, p.unite);
        if !ok { echecs := echecs + 1; }
      }
      RemisHorsUnite(p, old(fichiers), remis, fichiers, deja, ratees);
      var e := Commande(Etiqueter);
      var r := Commande(RelireUnites);
      var o := Commande(OublierEchecs);
      var l := Commande(Relancer);
      QuatreAppels(depart, appels, e, r, o, l);
      if echecs > 0 { return RevenueEnArriere(cause, Incomplet), retour; }
      var tient;
      tient, retour := PorteDeSante(m, false);
      motif := RevenueEnArriere(cause, if tient then Tient else NeTientPas);
    }

    /** Steps 3 to 5: the unit, the restart, the gate; any of them may call the way back. */
    method Redemarrer(p: Plan, m: Monde) returns (motif: Motif, ghost v: Veille)
      requires PlanSain(p) && ratees == {}
      modifies this`fichiers, this`ratees, this`uniteLaissee, this`incidents, this`appels, m
      ensures incidents >= old(incidents)
      ensures old(appels) <= appels && AppelsRedemarrage(motif, appels[|old(appels)|..])
      ensures incidents == old(incidents) && motif.RevenueEnArriere? ==>
                motif.cause == PorteRefusee && (Gardees(p, old(fichiers)) ==> ratees == {})
      ensures motif == PorteFranchie || motif.RevenueEnArriere?
      ensures Surveille(old(m.journal), m.journal, motif, v)
      ensures motif == PorteFranchie ==> ratees == {} && Lire(fichiers, p.unite) == uniteLaissee
      ensures motif == PorteFranchie ==> forall c: Chemin | c != p.unite && !c.Nouveau? ::
          Lire(old(fichiers), c) == Lire(fichiers, c)
      ensures motif.RevenueEnArriere? ==> (motif.suite == Incomplet <==> ratees != {})
      ensures motif.RevenueEnArriere? ==> Remis(p, |p.fichiers|, old(fichiers), fichiers, ratees)
      ensures motif.RevenueEnArriere? ==> ratees <= Destinations(p, |p.fichiers|) + {p.unite}
      ensures motif.RevenueEnArriere? ==>
                Lire(fichiers, p.unite)
                == UniteFinale(Lire(old(fichiers), UNITE_GARDEE), uniteLaissee, p.unite in ratees)
      ensures motif.RevenueEnArriere? ==>
                forall c: Chemin | c !in Destinations(p, |p.fichiers|) && c != p.unite ::
                  Lire(old(fichiers), c) == Lire(fichiers, c)
    {
      hide Porte, Appeles, AppelsAller, AppelsRedemarrage;
      ghost var avant, depart := fichiers, appels;
      ghost var retour, porte := Deroule([], 0, 0), Deroule([], 0, 0);
      var ecrite := InstallerUnite(p);
      ghost var unite := fichiers;
      GardeesIntactes(p, avant, unite);
      UniteAPart(p);
      var cause := UniteNonEcrite;
      UnAppel(depart, appels, ecrite);
      if ecrite {
        cause := RedemarrageRefuse;
        var oublies := Commande(OublierEchecs);
        var demarre := Commande(Relancer);
        TroisAppels(depart, appels, oublies, demarre);
        if demarre {
          cause := PorteRefusee;
          var sain;
          sain, porte := PorteDeSante(m, true);
          if sain {
            ViderNouveau();
            return PorteFranchie, Veille(porte, [], retour);
          }
        }
      }
      ghost var milieu := m.journal;
      ghost var aller := appels;
      motif, retour := RetourArriere(p, m, cause);
      AllerPuisRetour(motif, depart, aller, appels);
      v := Veille(porte, milieu, retour);
      RemisApresUnite(p, avant, unite, fichiers, ratees);
    }

    /** Steps 0 and 1: nothing outside `precedent` is touched. */
    method Preparer(p: Plan) returns (arret: Option<Motif>)
      requires PlanSain(p)
      modifies this`fichiers, this`completes, this`incidents, this`appels
      ensures incidents >= old(incidents)
      ensures appels == old(appels) + (if arret.None? then [Appel(CreerDossier, true)]
                                       else if arret.value.SourceModifiee? then []
                                       else [Appel(CreerDossier, arret.value != GardeImpossible)])
      ensures incidents == old(incidents) && arret.Some? ==> SansPanne(p, old(fichiers), arret.value)
      ensures arret.None? ==> Complete(p, old(fichiers)) && SourcesIntactes(p, old(fichiers))
      ensures forall c: Chemin | !c.Precedent? :: Lire(old(fichiers), c) == Lire(fichiers, c)
      ensures arret.Some? ==> arret.value.SourceModifiee? || arret.value in {GardeImpossible, VersionIncomplete}
      ensures arret.None? ==> Gardes(p, |p.fichiers|, old(fichiers), fichiers) && SourcesIntactes(p, fichiers)
      ensures arret.None? && UNITE_GARDEE in completes ==>
                p.unite in old(fichiers) && Lire(fichiers, UNITE_GARDEE) == Lire(old(fichiers), p.unite)
    {
      ghost var avant := fichiers;
      var mauvaise := VerifierSources(p);
      if mauvaise.Some? { return Some(SourceModifiee(mauvaise.value)); }
      ViderPrecedent();
      var dossier := Commande(CreerDossier);
      if !dossier { return Some(GardeImpossible); }
      ghost var vide := fichiers;
      SystemeSeul(p, avant, vide);
      var gardes := GarderTout(p);
      if !gardes { return Some(VersionIncomplete); }
      ghost var garde := fichiers;
      var _ := Copier(p.unite, UNITE_GARDEE);
      Prepare(p, avant, vide, garde, fichiers);
      return None;
    }

    /** `executer` */
    method ExecuterPlan(p: Plan, m: Monde) returns (motif: Motif, ghost v: Veille)
      requires PlanSain(p)
      modifies this`fichiers, this`ratees, this`completes, this`uniteLaissee, this`incidents, this`appels, m
      ensures incidents >= old(incidents)
      ensures old(appels) <= appels && AppelsDe(motif, appels[|old(appels)|..])
      ensures incidents == old(incidents) ==> SansPanne(p, old(fichiers), motif)
      ensures motif.BasculeRatee? ==> BasculeRateeEn(p, motif.nom, ratees)
      ensures Surveille(old(m.journal), m.journal, motif, v)
      ensures Issue(p, old(fichiers), fichiers, motif, ratees, UNITE_GARDEE in completes, uniteLaissee)
    {
      hide *;
      ratees := {};
      v := Veille(Deroule([], 0, 0), [], Deroule([], 0, 0));
      ghost var avant := fichiers;
      var arret := Preparer(p);
      if arret.Some? {
        motif := arret.value;
        IssueArret(p, avant, fichiers, motif, UNITE_GARDEE in completes, uniteLaissee);
        AppelsArret(motif, old(appels), appels);
        SansPorte(m.journal, motif, v);
        return;
      }
      ghost var garde := fichiers;
      var poses := BasculerTout(p);
      ghost var bascule := fichiers;
      ToutGarde(p, poses, avant, garde, bascule);
      if poses < |p.fichiers| {
        motif := BasculeRatee(p.fichiers[poses].nom);
        var _ := Remettre(p, poses);
        RateeEn(p, poses, ratees);
        IssueRatee(p, poses, avant, garde, bascule, fichiers, motif, ratees, UNITE_GARDEE in completes, uniteLaissee);
        AppelsArret(motif, old(appels), appels);
        SansPorte(m.journal, motif, v);
        return;
      }
      var etiquetees := Commande(Etiqueter);
      ghost var prets := appels;
      motif, v := Redemarrer(p, m);
      assert appels == prets + appels[|prets|..];
      AppelsEntiers(motif, old(appels), appels, etiquetees, appels[|prets|..]);
      if incidents == old(incidents) { RienManque(p, avant, motif, ratees); }
      if motif == PorteFranchie {
        IssueFranchie(p, avant, garde, bascule, fichiers, ratees, UNITE_GARDEE in completes, uniteLaissee);
      } else {
        IssueRetour(p, avant, garde, bascule, fichiers, motif, ratees, UNITE_GARDEE in completes, uniteLaissee);
      }
    }

    /** `Executer`: the lock is given back on every path. */
    method Executer(p: Plan, m: Monde) returns (resultat: Resultat, motif: Motif, ghost v: Veille)
      requires PlanSain(p)
      modifies this, m
      ensures !verrou
      ensures resultat == Installe <==> exists d :: Porte(old(m.journal), m.journal, true, true, d)
      ensures resultat == Installe ==> motif == PorteFranchie && Installes(p, fichiers)
      ensures resultat != Installe ==> Laisses(p, old(fichiers), fichiers, ratees)
      ensures resultat == Refuse <==> motif.SourceModifiee? || motif == VersionIncomplete
      ensures resultat == Refuse ==> SystemeIntact(old(fichiers), fichiers)
      ensures incidents == old(incidents) ==> SansPanne(p, old(fichiers), motif)
      ensures motif.BasculeRatee? ==> BasculeRateeEn(p, motif.nom, ratees)
      ensures old(appels) <= appels && AppelsDe(motif, appels[|old(appels)|..])
      ensures Surveille(old(m.journal), m.journal, motif, v)
      ensures Issue(p, old(fichiers), fichiers, motif, ratees, UNITE_GARDEE in completes, uniteLaissee)
    {
      hide *;
      motif, v := ExecuterPlan(p, m);
      SelonLaPorte(p, old(fichiers), fichiers, old(m.journal), m.journal, motif, v, ratees,
                   UNITE_GARDEE in completes, uniteLaissee);
      resultat := ResultatDe(motif);
      verrou := false;
    }
  }

  lemma GardeesIntactes(p: Plan, avant: Fichiers, apres: Fichiers)
    requires PlanSain(p) && forall c: Chemin | c.Precedent? :: Lire(avant, c) == Lire(apres, c)
    ensures Gardees(p, avant) <==> Gardees(p, apres)
  {
    forall i | 0 <= i < |p.fichiers|
      ensures Precedent(p.fichiers[i].nom) in avant <==> Precedent(p.fichiers[i].nom) in apres
    {
      assert Lire(avant, Precedent(p.fichiers[i].nom)) == Lire(apres, Precedent(p.fichiers[i].nom));
    }
  }

  lemma ToutGarde(p: Plan, n: nat, avant: Fichiers, garde: Fichiers, bascule: Fichiers)
    requires PlanSain(p) && n <= |p.fichiers|
    requires Gardes(p, |p.fichiers|, avant, garde) && Poses(p, n, garde, bascule) && SourcesIntactes(p, garde)
    ensures Gardees(p, bascule)
    ensures n < |p.fichiers| ==> p.fichiers[n].source in garde
  {
    forall i | 0 <= i < |p.fichiers| ensures Precedent(p.fichiers[i].nom) in bascule {
      DestinationDe(p, n, i);
      assert Lire(garde, Precedent(p.fichiers[i].nom)) == Lire(bascule, Precedent(p.fichiers[i].nom));
    }
    if n < |p.fichiers| { assert SourceIntacte(p, garde, n); }
  }

  lemma RienManque(p: Plan, avant: Fichiers, motif: Motif, ratees: set<Chemin>)
    requires SourcesIntactes(p, avant) && Complete(p, avant) && (motif == PorteFranchie || motif.RevenueEnArriere?)
    requires motif.RevenueEnArriere? ==>
               motif.cause == PorteRefusee && ratees == {} && (motif.suite == Incomplet <==> ratees != {})
    ensures SansPanne(p, avant, motif)
  {
  }

  /** The result is read in the journal of the machine: a gate crossed with its probe ends on the answer of the
      probe, and nothing else an update does ends so. */
  lemma SelonLaPorte(p: Plan, avant: Fichiers, apres: Fichiers, lu: seq<Fait>, journal: seq<Fait>, motif: Motif,
                     v: Veille, ratees: set<Chemin>, complete: bool, uniteLaissee: Option<string>)
    requires Surveille(lu, journal, motif, v) && Issue(p, avant, apres, motif, ratees, complete, uniteLaissee)
    ensures ResultatDe(motif) == Installe <==> exists d :: Porte(lu, journal, true, true, d)
    ensures ResultatDe(motif) == Installe ==> motif == PorteFranchie && Installes(p, apres)
    ensures ResultatDe(motif) != Installe ==> Laisses(p, avant, apres, ratees)
    ensures ResultatDe(motif) == Refuse <==> motif.SourceModifiee? || motif == VersionIncomplete
    ensures ResultatDe(motif) == Refuse ==> SystemeIntact(avant, apres)
  {
    hide Porte, Laisses, Installes, SystemeIntact;
    forall d | Porte(lu, journal, true, true, d) ensures motif == PorteFranchie {
      FinDePorte(lu, journal, true, true, d);
      if motif.RevenueEnArriere? {
        if motif.cause == PorteRefusee { FinDePorte(lu, v.milieu, true, false, v.porte); }
        if motif.suite != Incomplet { FinDePorte(v.milieu, journal, false, motif.suite == Tient, v.retour); }
      }
    }
  }

  /** What stops an update does not depend on what lies in `precedent`. */
  lemma SystemeSeul(p: Plan, avant: Fichiers, apres: Fichiers)
    requires PlanSain(p) && forall c: Chemin | !c.Precedent? :: Lire(avant, c) == Lire(apres, c)
    ensures Complete(p, avant) <==> Complete(p, apres)
    ensures SourcesIntactes(p, avant) <==> SourcesIntactes(p, apres)
  {
    forall i | 0 <= i < |p.fichiers|
      ensures p.fichiers[i].destination in avant <==> p.fichiers[i].destination in apres
      ensures SourceIntacte(p, avant, i) <==> SourceIntacte(p, apres, i)
    {
      assert Lire(avant, p.fichiers[i].destination) == Lire(apres, p.fichiers[i].destination);
      assert Lire(avant, p.fichiers[i].source) == Lire(apres, p.fichiers[i].source);
    }
  }

  lemma SansPorte(journal: seq<Fait>, motif: Motif, v: Veille)
    requires motif != PorteFranchie && !motif.RevenueEnArriere?
    ensures Surveille(journal, journal, motif, v)
  {
  }

  lemma IssueArret(p: Plan, avant: Fichiers, apres: Fichiers, motif: Motif, complete: bool,
                   uniteLaissee: Option<string>)
    requires PlanSain(p) && (motif.SourceModifiee? || motif in {GardeImpossible, VersionIncomplete})
    requires forall c: Chemin | !c.Precedent? :: Lire(avant, c) == Lire(apres, c)
    ensures Issue(p, avant, apres, motif, {}, complete, uniteLaissee)
  {
    hide Lire, Destinations;
  }

  lemma IssueRatee(p: Plan, n: nat, avant: Fichiers, garde: Fichiers, bascule: Fichiers, apres: Fichiers,
                   motif: Motif, ratees: set<Chemin>, complete: bool, uniteLaissee: Option<string>)
    requires PlanSain(p) && motif.BasculeRatee? && n <= |p.fichiers|
    requires forall c: Chemin | !c.Precedent? :: Lire(avant, c) == Lire(garde, c)
    requires Gardes(p, |p.fichiers|, avant, garde) && Poses(p, n, garde, bascule)
    requires ratees <= Destinations(p, n) && Remis(p, n, bascule, apres, ratees)
    requires forall c: Chemin | c !in Destinations(p, n) :: Lire(bascule, c) == Lire(apres, c)
    ensures Issue(p, avant, apres, motif, ratees, complete, uniteLaissee)
  {
    AllerRetour(p, n, avant, garde, bascule, apres, ratees);
    UniteAPart(p);
    DestinationsCroissent(p, n);
    hide Lire, Destinations, Laisses, Remis, Gardes;
  }

  lemma IssueRetour(p: Plan, avant: Fichiers, garde: Fichiers, bascule: Fichiers, apres: Fichiers,
                    motif: Motif, ratees: set<Chemin>, complete: bool, uniteLaissee: Option<string>)
    requires PlanSain(p) && motif.RevenueEnArriere? && (motif.suite == Incomplet <==> ratees != {})
    requires forall c: Chemin | !c.Precedent? :: Lire(avant, c) == Lire(garde, c)
    requires Gardes(p, |p.fichiers|, avant, garde) && Poses(p, |p.fichiers|, garde, bascule)
    requires complete ==> p.unite in avant && Lire(garde, UNITE_GARDEE) == Lire(avant, p.unite)
    requires ratees <= Destinations(p, |p.fichiers|) + {p.unite}
    requires Remis(p, |p.fichiers|, bascule, apres, ratees)
    requires Lire(apres, p.unite) == UniteFinale(Lire(bascule, UNITE_GARDEE), uniteLaissee, p.unite in ratees)
    requires forall c: Chemin | c !in Destinations(p, |p.fichiers|) && c != p.unite ::
               Lire(bascule, c) == Lire(apres, c)
    ensures Issue(p, avant, apres, motif, ratees, complete, uniteLaissee)
  {
    AllerRetour(p, |p.fichiers|, avant, garde, bascule, apres, ratees);
    UniteAPart(p);
    hide Lire, Destinations, Laisses, Remis, Gardes, UniteFinale;
    assert Lire(garde, UNITE_GARDEE) == Lire(bascule, UNITE_GARDEE) == Lire(apres, UNITE_GARDEE);
  }

  lemma IssueFranchie(p: Plan, avant: Fichiers, garde: Fichiers, bascule: Fichiers, apres: Fichiers,
                      ratees: set<Chemin>, complete: bool, uniteLaissee: Option<string>)
    requires PlanSain(p) && Lire(apres, p.unite) == uniteLaissee
    requires forall c: Chemin | !c.Precedent? :: Lire(avant, c) == Lire(garde, c)
    requires SourcesIntactes(p, garde) && Poses(p, |p.fichiers|, garde, bascule)
    requires forall c: Chemin | c != p.unite && !c.Nouveau? :: Lire(bascule, c) == Lire(apres, c)
    ensures Issue(p, avant, apres, PorteFranchie, ratees, complete, uniteLaissee)
  {
    ToutInstalle(p, garde, bascule, apres);
    hide Lire, Destinations, SourcesIntactes, Installes;
  }

  lemma UniteAPart(p: Plan)
    requires PlanSain(p)
    ensures forall n: nat | n <= |p.fichiers| ::
              p.unite !in Destinations(p, n) && UNITE_GARDEE !in Destinations(p, n)
  {
  }

  /** One more file put back, or not. */
  lemma RemisEncore(p: Plan, k: nat, depart: Fichiers, avant: Fichiers, apres: Fichiers, deja: set<Chemin>,
                    ratees: set<Chemin>)
    requires PlanSain(p) && k < |p.fichiers|
    requires deja <= Destinations(p, k) && Remis(p, k, depart, avant, deja)
    requires forall c: Chemin | c !in Destinations(p, k) :: Lire(depart, c) == Lire(avant, c)
    requires var g, d := Precedent(p.fichiers[k].nom), p.fichiers[k].destination;
             || (ratees == deja && g in avant && apres == avant[d := avant[g]])
             || (ratees == deja + {d} && apres == avant)
    ensures Remis(p, k + 1, depart, apres, ratees)
  {
    DestinationDe(p, k, k);
    var g, d := Precedent(p.fichiers[k].nom), p.fichiers[k].destination;
    assert Lire(depart, g) == Lire(avant, g) && Lire(depart, d) == Lire(avant, d);
    forall i | 0 <= i < k
      ensures p.fichiers[i].destination != d && Lire(apres, p.fichiers[i].destination)
           == Lire(avant, p.fichiers[i].destination)
    {
    }
  }

  lemma RemisHorsUnite(p: Plan, depart: Fichiers, remis: Fichiers, apres: Fichiers, deja: set<Chemin>,
                       ratees: set<Chemin>)
    requires PlanSain(p) && Remis(p, |p.fichiers|, depart, remis, deja) && deja <= ratees <= deja + {p.unite}
    requires forall c: Chemin | c != p.unite :: Lire(remis, c) == Lire(apres, c)
    ensures Remis(p, |p.fichiers|, depart, apres, ratees)
  {
    hide Lire;
    forall i | 0 <= i < |p.fichiers|
      ensures Lire(apres, p.fichiers[i].destination) == Lire(remis, p.fichiers[i].destination)
      ensures p.fichiers[i].destination in ratees <==> p.fichiers[i].destination in deja
    {
    }
  }

  /** Putting back is indifferent to the unit. */
  lemma RemisApresUnite(p: Plan, avant: Fichiers, unite: Fichiers, apres: Fichiers, ratees: set<Chemin>)
    requires PlanSain(p) && forall c: Chemin | c != p.unite :: Lire(avant, c) == Lire(unite, c)
    requires Remis(p, |p.fichiers|, unite, apres, ratees)
    ensures Remis(p, |p.fichiers|, avant, apres, ratees)
  {
    forall i | 0 <= i < |p.fichiers|
      ensures Lire(apres, p.fichiers[i].destination)
           == Lire(avant, if p.fichiers[i].destination in ratees then p.fichiers[i].destination
                          else Precedent(p.fichiers[i].nom))
    {
      assert Lire(avant, p.fichiers[i].destination) == Lire(unite, p.fichiers[i].destination);
      assert Lire(avant, Precedent(p.fichiers[i].nom)) == Lire(unite, Precedent(p.fichiers[i].nom));
    }
  }

  lemma Prepare(p: Plan, avant: Fichiers, vide: Fichiers, garde: Fichiers, apres: Fichiers)
    requires PlanSain(p) && SourcesIntactes(p, avant)
    requires forall c: Chemin | !c.Precedent? :: Lire(avant, c) == Lire(vide, c)
    requires forall c: Chemin | !c.Precedent? :: Lire(vide, c) == Lire(garde, c)
    requires Gardes(p, |p.fichiers|, vide, garde)
    requires forall c: Chemin | c != UNITE_GARDEE :: Lire(garde, c) == Lire(apres, c)
    ensures Gardes(p, |p.fichiers|, avant, apres) && SourcesIntactes(p, apres)
    ensures Lire(garde, p.unite) == Lire(avant, p.unite)
  {
    assert Lire(avant, p.unite) == Lire(vide, p.unite);
    forall i | 0 <= i < |p.fichiers|
      ensures SourceIntacte(p, apres, i)
    {
      assert SourceIntacte(p, avant, i);
      assert Lire(avant, p.fichiers[i].source) == Lire(apres, p.fichiers[i].source);
    }
  }

  lemma ToutInstalle(p: Plan, garde: Fichiers, bascule: Fichiers, apres: Fichiers)
    requires PlanSain(p) && SourcesIntactes(p, garde) && Poses(p, |p.fichiers|, garde, bascule)
    requires forall c: Chemin | c != p.unite && !c.Nouveau? :: Lire(bascule, c) == Lire(apres, c)
    ensures Installes(p, apres)
  {
    forall i | 0 <= i < |p.fichiers|
      ensures p.fichiers[i].destination in apres && SHA256(apres[p.fichiers[i].destination]) == p.fichiers[i].sha256
    {
      assert SourceIntacte(p, garde, i);
      assert Lire(bascule, p.fichiers[i].destination) == Lire(apres, p.fichiers[i].destination);
    }
  }
}
