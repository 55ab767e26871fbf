/** What one pass of reconciliation may do, and what follows for the files (reconcilier.go:93-188, 294-329). */
module Passages {
  import opened Options
  import opened ConfTextes
  import opened Secours
  import opened Regles
  import opened ConfGroupe

  datatype Action = AJour | EnAvance | Absente | AEcrire | Ecrite | Refusee | NonRecharge | EcartEffectif
  datatype Etat = Conforme | Reconciliee | Ecart | NonPrisEnCharge

  function Actuel(o: Option<string>): string { if o.Some? then o.value else "" }

  function Lu(f: Fichiers, r: Regle): Option<string> { Lire(f, Cible(r.rel)) }

  /** What the rule would write over this content: its producer accepts it, and so does its check. */
  ghost function Candidature(r: Regle, o: Option<string>): Option<string> {
    match Produire(r.produire, Actuel(o))
    case Ok(c) => if r.porte && !PorteOuverte(Lignes(c)) then None else Some(c)
    case _ => None
  }

  /** The finding of `Planifier` on one rule. */
  ghost function ActionPrevue(r: Regle, o: Option<string>): Action {
    if o.None? && !r.creer then (if r.requis then Refusee else Absente)
    else if o.Some? && LireVersion(o.value) == r.version then AJour
    else if o.Some? && LireVersion(o.value) > r.version then EnAvance
    else if Candidature(r, o).Some? then AEcrire
    else Refusee
  }

  /** The findings in plain words. */
  lemma PrevueDite(r: Regle, o: Option<string>)
    ensures ActionPrevue(r, o) == AJour <==> o.Some? && LireVersion(o.value) == r.version
    ensures ActionPrevue(r, o) == EnAvance <==> o.Some? && LireVersion(o.value) > r.version
    ensures ActionPrevue(r, o) == Absente <==> o.None? && !r.creer && !r.requis
    ensures ActionPrevue(r, o) == AEcrire <==>
              && (o.None? ==> r.creer) && (o.Some? ==> LireVersion(o.value) < r.version)
              && Produire(r.produire, if o.Some? then o.value else "").Ok?
              && (r.porte ==> PorteOuverte(Lignes(Produire(r.produire, if o.Some? then o.value else "").value)))
    ensures ActionPrevue(r, o) in {AJour, EnAvance, Absente, AEcrire, Refusee}
  {
    hide LireVersion, Produire, PorteOuverte, Lignes;
  }

  const GDM := "etc/pam.d/" + "gdm-password"

  function ReglesSur(famille: Famille, f: Fichiers): seq<Regle> {
    ReglesDe(famille, Lire(f, Cible(GDM)).Some?)
  }

  /** What became of one rule: its finding, its file before, its file after. */
  ghost predicate Devenu(r: Regle, a: Action, o: Option<string>, o': Option<string>) {
    match a
    case Ecrite => ActionPrevue(r, o) == AEcrire && o' == Candidature(r, o)
    case Refusee => (ActionPrevue(r, o) == Refusee && o' == o)
                    || (ActionPrevue(r, o) == AEcrire && o' in {o, Candidature(r, o)})
    case AJour | EnAvance | Absente | AEcrire => ActionPrevue(r, o) == a && o' == o
    case _ => false
  }

  /** The group of a rule: a refusal leaves none of it written, a rule left to write is held by a refusal. */
  ghost predicate GroupesEntiers(regles: seq<Regle>, actions: seq<Action>)
    requires |regles| == |actions|
  {
    && (forall i, j | 0 <= i < |regles| && 0 <= j < |regles| && regles[i].groupe == regles[j].groupe ::
          actions[i] == Ecrite ==> actions[j] !in {Refusee, AEcrire})
    && (forall i | 0 <= i < |regles| && actions[i] == AEcrire ::
          exists j | 0 <= j < |regles| :: regles[j].groupe == regles[i].groupe && actions[j] == Refusee)
  }

  ghost predicate Passage(regles: seq<Regle>, actions: seq<Action>, f: Fichiers, f': Fichiers) {
    && |actions| == |regles| && GroupesEntiers(regles, actions)
    && (forall i | 0 <= i < |regles| :: Devenu(regles[i], actions[i], Lu(f, regles[i]), Lu(f', regles[i])))
    && (forall rel: string | (forall i | 0 <= i < |regles| :: regles[i].rel != rel) ::
        Lire(f', Cible(rel)) == Lire(f, Cible(rel)))
  }

  /** `resumer`, on the findings of the rules and of the two later checks. */
  function EtatDe(actions: seq<Action>): Etat {
    if exists i | 0 <= i < |actions| :: actions[i] in {Refusee, NonRecharge, EcartEffectif} then Ecart
    else if Ecrite in actions then Reconciliee
    else Conforme
  }

  method Resumer(actions: seq<Action>) returns (e: Etat)
    ensures e == EtatDe(actions)
  {
    var refus, ecrits := false, false;
    for i := 0 to |actions|
      invariant refus == exists k | 0 <= k < i :: actions[k] in {Refusee, NonRecharge, EcartEffectif}
      invariant ecrits == (Ecrite in actions[..i])
    {
      if actions[i] == Ecrite { ecrits := true; }
      if actions[i] in {Refusee, NonRecharge, EcartEffectif} { refus := true; }
    }
    assert actions[..|actions|] == actions;
    e := if refus then Ecart else if ecrits then Reconciliee else Conforme;
  }

  // --- a written file is at the version of its rule ------------------------------------

  ghost predicate DesRegles(regles: seq<Regle>) {
    forall i | 0 <= i < |regles| :: Livre(regles[i].produire) && regles[i].version == VERSION
  }

  lemma CandidatVersion(r: Regle, o: Option<string>)
    requires Livre(r.produire) && Candidature(r, o).Some?
    ensures LireVersion(Candidature(r, o).value) == VERSION
  {
    hide Livre, Produire, PorteOuverte, LireVersion, Lignes;
    ProducteurVersion(r.produire, Actuel(o));
  }

  /** No pass lowers the version of a file, nor makes one disappear. */
  lemma JamaisPlusBas(regles: seq<Regle>, actions: seq<Action>, f: Fichiers, f': Fichiers, i: nat)
    requires Passage(regles, actions, f, f') && DesRegles(regles)
    requires i < |regles| && Lu(f, regles[i]).Some?
    ensures Lu(f', regles[i]).Some? && LireVersion(Lu(f', regles[i]).value) >= LireVersion(Lu(f, regles[i]).value)
  {
    hide Livre, Candidature, LireVersion, GroupesEntiers;
    var r, o := regles[i], Lu(f, regles[i]);
    assert Devenu(r, actions[i], o, Lu(f', r));
    if Candidature(r, o).Some? { CandidatVersion(r, o); }
  }

  /** A PAM stack that a pass has changed, even one whose group could not be put back, keeps the emergency
      door open. */
  lemma PorteJamaisFermee(famille: Famille, actions: seq<Action>, f: Fichiers, f': Fichiers, rel: string)
    requires Passage(ReglesSur(famille, f), actions, f, f') && "etc/pam.d/" <= rel
    requires Lire(f', Cible(rel)) != Lire(f, Cible(rel))
    ensures Lire(f', Cible(rel)).Some? && PorteOuverte(Lignes(Lire(f', Cible(rel)).value))
  {
    hide Produire, PorteOuverte, LireVersion, GroupesEntiers, Lignes, ReglesDe;
    var regles := ReglesSur(famille, f);
    var i: nat :| i < |regles| && regles[i].rel == rel;
    ReglesTenues(famille, Lire(f, Cible(GDM)).Some?, i);
    var r := regles[i];
    assert Devenu(r, actions[i], Lu(f, r), Lu(f', r));
  }

  /** The same rules apply after a pass as before it. */
  lemma MemesRegles(famille: Famille, actions: seq<Action>, f: Fichiers, f': Fichiers)
    requires Passage(ReglesSur(famille, f), actions, f, f')
    ensures ReglesSur(famille, f') == ReglesSur(famille, f)
  {
    hide Devenu, GroupesEntiers, Livre;
    var regles := ReglesSur(famille, f);
    if Lire(f, Cible(GDM)).Some? && famille != Inconnue {
      GdmEnPlace(famille);
      ReglesToutes(famille, true);
      JamaisPlusBas(regles, actions, f, f', 2);
    } else if famille != Inconnue {
      GdmAbsent(famille);
    }
  }

  lemma GdmEnPlace(famille: Famille)
    requires famille != Inconnue
    ensures |ReglesDe(famille, true)| == 6 && ReglesDe(famille, true)[2].rel == GDM
  {
    hide PileDebianProprietes.LigneAuth;
  }

  lemma GdmAbsent(famille: Famille)
    requires famille != Inconnue
    ensures forall i | 0 <= i < |ReglesDe(famille, false)| :: ReglesDe(famille, false)[i].rel != GDM
  {
    hide PileDebianProprietes.LigneAuth;
    NomsDistincts(famille, false);
  }

  lemma ReglesToutes(famille: Famille, avecGDM: bool)
    ensures DesRegles(ReglesDe(famille, avecGDM))
  {
    hide ReglesDe, Livre;
    forall i | 0 <= i < |ReglesDe(famille, avecGDM)|
      ensures Livre(ReglesDe(famille, avecGDM)[i].produire) && ReglesDe(famille, avecGDM)[i].version == VERSION
    {
      ReglesLivrees(famille, avecGDM, i);
    }
  }

  /** No two rules hold the same file. */
  lemma NomsDistincts(famille: Famille, avecGDM: bool)
    ensures forall i, j | 0 <= i < j < |ReglesDe(famille, avecGDM)| ::
              ReglesDe(famille, avecGDM)[i].rel != ReglesDe(famille, avecGDM)[j].rel
  {
    hide PileDebianProprietes.LigneAuth;
  }

  // --- the reports mean what they say -------------------------------------------------

  lemma Agree(actions: seq<Action>, suite: seq<Action>, i: nat)
    requires EtatDe(actions + suite) != Ecart && i < |actions|
    ensures actions[i] !in {Refusee, NonRecharge, EcartEffectif}
    ensures EtatDe(actions + suite) == Conforme ==> actions[i] != Ecrite
  {
    var t := actions + suite;
    assert t[i] == actions[i] && t[i] in t;
  }

  /** After a pass that ends without a gap, a second plan over the files it leaves writes nothing. */
  lemma PointFixe(famille: Famille, actions: seq<Action>, suite: seq<Action>, f: Fichiers, f': Fichiers, i: nat)
    requires Passage(ReglesSur(famille, f), actions, f, f') && EtatDe(actions + suite) in {Reconciliee, Conforme}
    requires i < |ReglesSur(famille, f)|
    ensures ReglesSur(famille, f') == ReglesSur(famille, f)
    ensures var r := ReglesSur(famille, f')[i]; ActionPrevue(r, Lu(f', r)) in {AJour, EnAvance, Absente}
  {
    hide Livre, Candidature, LireVersion, EtatDe, ReglesDe;
    var regles := ReglesSur(famille, f);
    var r := regles[i];
    MemesRegles(famille, actions, f, f');
    ReglesToutes(famille, Lire(f, Cible(GDM)).Some?);
    RienEnAttente(regles, actions, suite, i);
    Agree(actions, suite, i);
    assert Devenu(r, actions[i], Lu(f, r), Lu(f', r));
    if actions[i] == Ecrite { CandidatVersion(r, Lu(f, r)); }
  }

  lemma RienEnAttente(regles: seq<Regle>, actions: seq<Action>, suite: seq<Action>, i: nat)
    requires |actions| == |regles| && GroupesEntiers(regles, actions) && EtatDe(actions + suite) != Ecart &&
        i < |regles|
    ensures actions[i] != AEcrire
  {
    hide EtatDe;
    forall j | 0 <= j < |actions| ensures actions[j] != Refusee { Agree(actions, suite, j); }
  }

  /** A pass that says "conforme" has written nothing, and every held file is at its version, ahead of it, or
      absent where nothing requires it. */
  lemma ConformeVeutDire(famille: Famille, actions: seq<Action>, suite: seq<Action>, f: Fichiers, f': Fichiers, i: nat)
    requires Passage(ReglesSur(famille, f), actions, f, f') && EtatDe(actions + suite) == Conforme
    requires i < |ReglesSur(famille, f)|
    ensures var r := ReglesSur(famille, f)[i];
            && actions[i] in {AJour, EnAvance, Absente} && Lu(f', r) == Lu(f, r)
            && (if actions[i] == Absente then Lu(f', r).None? && !r.requis
                else Lu(f', r).Some? && LireVersion(Lu(f', r).value) >= VERSION)
  {
    hide Livre, Candidature, LireVersion, EtatDe, ReglesDe;
    var regles := ReglesSur(famille, f);
    var r := regles[i];
    ReglesToutes(famille, Lire(f, Cible(GDM)).Some?);
    RienEnAttente(regles, actions, suite, i);
    Agree(actions, suite, i);
    assert Devenu(r, actions[i], Lu(f, r), Lu(f', r));
  }
}
