/** The working inventory of one cycle (inventaire.go): every write, removal and expectation gets an
    increasing rank, and "what this module wrote" is "what ranks after its starting mark". */
module Inventaires {
  import opened Cles
  import opened Proprietes

  type Chemin = string

  /** SHA-256 taken as an injective identifier of the content. */
  datatype Empreinte = SHA256(contenu: string)

  datatype VouluFichier = Ecrit(somme: Empreinte, mode: nat) | Retire
  datatype Attente = Attente(kind: string, target: string, attendu: string)

  type FileState = Suivi<VouluFichier>
  type SystemCheck = Suivi<Attente>

  function CheckID(a: Attente): string { a.kind + "|" + a.target }

  /** Two expectations of kinds without a bar share their place exactly if they watch the same thing. */
  lemma CheckIDDistingue(a: Attente, b: Attente)
    requires '|' !in a.kind && '|' !in b.kind
    ensures CheckID(a) == CheckID(b) <==> a.kind == b.kind && a.target == b.target
  {
    if CheckID(a) == CheckID(b) {
      var s := CheckID(a);
      assert s[|a.kind|] == '|' && s[|b.kind|] == '|';
      assert forall i | 0 <= i < |a.kind| :: s[i] == a.kind[i] && s[i] != '|';
      assert forall i | 0 <= i < |b.kind| :: s[i] == b.kind[i] && s[i] != '|';
      assert a.kind == s[..|a.kind|] && a.target == s[|a.kind| + 1..];
      assert b.kind == s[..|b.kind|] && b.target == s[|b.kind| + 1..];
    }
  }

  /** What an applier does through the funnel, once it has succeeded on the system. */
  datatype Geste =
    | Ecrire(chemin: Chemin, contenu: string, mode: nat)
    | Retirer(chemin: Chemin)
    | Attendre(attente: Attente)

  function VouluDe(g: Geste): VouluFichier
    requires !g.Attendre?
  {
    if g.Ecrire? then Ecrit(SHA256(g.contenu), g.mode) else Retire
  }

  // --- the reference: a last-write-wins fold of the event log ----------------

  /** One event of the log, as seen by the files or by the expectations. */
  datatype Ligne<T> = Autre | Inscription(nom: string, valeur: T)

  function LignesFichiers(g: seq<Geste>): seq<Ligne<VouluFichier>> {
    seq(|g|, i requires 0 <= i < |g| => if g[i].Attendre? then Autre else Inscription(g[i].chemin, VouluDe(g[i])))
  }

  function LignesAttentes(g: seq<Geste>): seq<Ligne<Attente>> {
    seq(|g|, i requires 0 <= i < |g| => if g[i].Attendre? then Inscription(CheckID(g[i].attente),
        g[i].attente) else Autre)
  }

  ghost function Plier<T>(l: seq<Ligne<T>>): map<string, T> {
    if l == [] then map[]
    else
      var avant := Plier(l[..|l| - 1]);
      match l[|l| - 1]
      case Autre => avant
      case Inscription(n, v) => avant[n := v]
  }

  ghost function PlierFichiers(g: seq<Geste>): map<Chemin, VouluFichier> { Plier(LignesFichiers(g)) }

  ghost function PlierAttentes(g: seq<Geste>): map<string, Attente> { Plier(LignesAttentes(g)) }

  /** The entries of one module: shown under its key, not yet shared. */
  ghost function Attribuer<T>(m: map<string, T>, cle: Cle): (r: map<string, Suivi<T>>)
    ensures r.Keys == m.Keys && forall p | p in m :: r[p] == Suivi(m[p], cle, [])
  {
    Tableau(m.Keys, (p: string) requires p in m => Suivi(m[p], cle, []))
  }

  // --- what the ranks mean ----------------------------------------------------

  datatype Note<T> = Note(etat: T, rang: int)

  ghost predicate RangsFideles<T>(notes: map<string, Note<T>>, l: seq<Ligne<T>>) {
    && notes.Keys == Plier(l).Keys
    && (forall p | p in notes :: 0 < notes[p].rang <= |l|)
    && (forall m, p | 0 <= m <= |l| && p in notes ::
          && (p in Plier(l[m..]) <==> notes[p].rang > m)
          && (p in Plier(l[m..]) ==> Plier(l[m..])[p] == notes[p].etat))
  }

  lemma PlierSuivant<T>(l: seq<Ligne<T>>, e: Ligne<T>, m: nat)
    requires m <= |l|
    ensures Plier((l + [e])[m..]) == if e.Autre? then Plier(l[m..]) else Plier(l[m..])[e.nom := e.valeur]
  {
    var k := l + [e];
    assert k[m..] == l[m..] + [e] && k[m..][..|k[m..]| - 1] == l[m..];
  }

  lemma RangsSansInscription<T>(notes: map<string, Note<T>>, l: seq<Ligne<T>>)
    requires RangsFideles(notes, l)
    ensures RangsFideles(notes, l + [Autre])
  {
    var k := l + [Autre];
    assert k[0..] == k && l[0..] == l && k[|k|..] == [];
    forall m | 0 <= m <= |l| { PlierSuivant(l, Autre, m); }
  }

  lemma RangsApresInscription<T>(notes: map<string, Note<T>>, l: seq<Ligne<T>>, n: string, v: T)
    requires RangsFideles(notes, l)
    ensures RangsFideles(notes[n := Note(v, |l| + 1)], l + [Inscription(n, v)])
  {
    var k := l + [Inscription(n, v)];
    assert k[0..] == k && l[0..] == l && k[|k|..] == [];
    forall m | 0 <= m <= |l| { PlierSuivant(l, Inscription(n, v), m); }
  }

  lemma LignesSuivantes(g: seq<Geste>, e: Geste)
    ensures LignesFichiers(g + [e]) == LignesFichiers(g) + [if e.Attendre? then Autre else Inscription(e.chemin,
        VouluDe(e))]
    ensures LignesAttentes(g + [e]) == LignesAttentes(g) + [if e.Attendre? then Inscription(CheckID(e.attente),
        e.attente) else Autre]
  {
  }

  lemma LignesSuffixe(g: seq<Geste>, m: nat)
    requires m <= |g|
    ensures LignesFichiers(g)[m..] == LignesFichiers(g[m..])
    ensures LignesAttentes(g)[m..] == LignesAttentes(g[m..])
  {
  }

  class Inventaire {
    var rang: int
    var fichiers: map<Chemin, Note<VouluFichier>>
    var attentes: map<string, Note<Attente>>
    ghost var journal: seq<Geste>

    ghost predicate Valid() reads this {
      && rang == |journal|
      && RangsFideles(fichiers, LignesFichiers(journal))
      && RangsFideles(attentes, LignesAttentes(journal))
    }

    constructor ()
      ensures Valid() && journal == []
    {
      rang, fichiers, attentes, journal := 0, map[], map[], [];
    }

    method Vider()
      modifies this
      ensures Valid() && journal == []
    {
      rang, fichiers, attentes, journal := 0, map[], map[], [];
    }

    method Marque() returns (r: int)
      requires Valid()
      ensures r == |journal|
    {
      r := rang;
    }

    method NoterEcriture(chemin: Chemin, contenu: string, mode: nat)
      requires Valid()
      modifies this
      ensures Valid() && journal == old(journal) + [Ecrire(chemin, contenu, mode)]
    {
      NoterFichier(chemin, Ecrit(SHA256(contenu), mode), Ecrire(chemin, contenu, mode));
    }

    method NoterAbsence(chemin: Chemin)
      requires Valid()
      modifies this
      ensures Valid() && journal == old(journal) + [Retirer(chemin)]
    {
      NoterFichier(chemin, Retire, Retirer(chemin));
    }

    method NoterFichier(chemin: Chemin, etat: VouluFichier, ghost g: Geste)
      requires Valid() && !g.Attendre? && g.chemin == chemin && etat == VouluDe(g)
      modifies this
      ensures Valid() && journal == old(journal) + [g]
    {
      LignesSuivantes(journal, g);
      RangsApresInscription(fichiers, LignesFichiers(journal), chemin, etat);
      RangsSansInscription(attentes, LignesAttentes(journal));
      rang := rang + 1;
      fichiers := fichiers[chemin := Note(etat, rang)];
      journal := journal + [g];
    }

    method NoterAttente(a: Attente)
      requires Valid()
      modifies this
      ensures Valid() && journal == old(journal) + [Attendre(a)]
    {
      ghost var g := Attendre(a);
      LignesSuivantes(journal, g);
      RangsApresInscription(attentes, LignesAttentes(journal), CheckID(a), a);
      RangsSansInscription(fichiers, LignesFichiers(journal));
      rang := rang + 1;
      attentes := attentes[CheckID(a) := Note(a, rang)];
      journal := journal + [g];
    }

    /** What was recorded after a mark is the fold of the log after that mark: an identical rewrite
        counts as a write, and nothing recorded before the mark is ever returned. */
    method FichiersDepuis(marque: nat, cle: Cle) returns (out: map<Chemin, FileState>)
      requires Valid() && marque <= |journal|
      ensures out == Attribuer(PlierFichiers(journal[marque..]), cle)
    {
      out := Depuis(fichiers, marque, cle);
      LignesSuffixe(journal, marque);
      PlierMonotone(LignesFichiers(journal), marque);
    }

    method AttentesDepuis(marque: nat, cle: Cle) returns (out: map<string, SystemCheck>)
      requires Valid() && marque <= |journal|
      ensures out == Attribuer(PlierAttentes(journal[marque..]), cle)
    {
      out := Depuis(attentes, marque, cle);
      LignesSuffixe(journal, marque);
      PlierMonotone(LignesAttentes(journal), marque);
    }
  }

  method Depuis<T>(notes: map<string, Note<T>>, marque: int, cle: Cle) returns (out: map<string, Suivi<T>>)
    ensures forall p :: p in out <==> p in notes && notes[p].rang > marque
    ensures forall p | p in out :: out[p] == Suivi(notes[p].etat, cle, [])
  {
    out := map[];
    var reste := notes.Keys;
    while reste != {}
      invariant reste <= notes.Keys
      invariant forall p :: p in out <==> p in notes && p !in reste && notes[p].rang > marque
      invariant forall p | p in out :: out[p] == Suivi(notes[p].etat, cle, [])
    {
      var p :| p in reste;
      reste := reste - {p};
      if notes[p].rang <= marque { continue; }
      out := out[p := Suivi(notes[p].etat, cle, [])];
    }
  }

  /** The fold of a suffix only knows names the whole log knows. */
  lemma {:induction false} PlierMonotone<T>(l: seq<Ligne<T>>, m: nat)
    requires m <= |l|
    ensures Plier(l[m..]).Keys <= Plier(l).Keys
  {
    if m < |l| {
      PlierMonotone(l[..|l| - 1], m);
      assert l[m..][..|l[m..]| - 1] == l[..|l| - 1][m..];
    } else {
      assert l[m..] == [];
    }
  }
}
