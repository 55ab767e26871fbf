/** The group commit of the configuration files: candidates laid next to their files, checked, backed up,
    renamed, and put back at the first failure (`ecrireGroupe`, reconcilier.go:201-291, 366-379). */
module ConfGroupe {
  import opened Options
  import opened Regles

  /** A held file, a candidate of the agent next to it, its backup of one pass, the candidate of a way back;
      and everything else. */
  datatype Chemin =
    | Cible(rel: string)
    | Temp(rel: string, n: nat)
    | Sauvegarde(rel: string, horodatage: string)
    | Remise(rel: string)
    | Autre(rel: string)

  type Fichiers = map<Chemin, string>

  function Lire(f: Fichiers, c: Chemin): Option<string> {
    if c in f then Some(f[c]) else None
  }

  /** `existe`: the file was there; `tmp` and `bak` are filled in as the commit goes. */
  datatype Candidat = Candidat(regle: Regle, contenu: string, existe: bool, tmp: Option<Chemin>, bak: Option<Chemin>) {
    function Vers(): Chemin { Cible(regle.rel) }
  }

  datatype Issue = Ecrit | Refuse | RemiseIncomplete

  /** A restoring step: done, failed, or failed because something it needed is gone (fs.ErrNotExist), which
      the way back does not report (reconcilier.go:286). */
  datatype Retour = Rendu | Rate | Disparu

  ghost predicate Distincts(cs: seq<Candidat>) {
    forall i, j | 0 <= i < j < |cs| :: cs[i].regle.rel != cs[j].regle.rel
  }

  /** The same candidates, whatever `tmp` and `bak` have become. */
  ghost predicate MemesCandidats(cs: seq<Candidat>, cs': seq<Candidat>) {
    |cs'| == |cs| && forall i | 0 <= i < |cs| ::
      cs'[i].regle == cs[i].regle && cs'[i].contenu == cs[i].contenu && cs'[i].existe == cs[i].existe
  }

  ghost predicate DuGroupe(rel: string, cs: seq<Candidat>) {
    exists i | 0 <= i < |cs| :: cs[i].regle.rel == rel
  }

  /** The temporaries noted in `tmp` belong to their candidates and were not there before. */
  ghost predicate TempsNotes(cs: seq<Candidat>, avant: Fichiers) {
    forall i | 0 <= i < |cs| && cs[i].tmp.Some? ::
      cs[i].tmp.value.Temp? && cs[i].tmp.value.rel == cs[i].regle.rel && cs[i].tmp.value !in avant
  }

  /** Every temporary that was not there before is noted. */
  ghost predicate TempsConnus(cs: seq<Candidat>, avant: Fichiers, f: Fichiers) {
    forall t: Chemin | t.Temp? && t in f && t !in avant :: exists i | 0 <= i < |cs| :: cs[i].tmp == Some(t)
  }

  /** What a candidate is put back from. */
  ghost predicate Remettable(c: Candidat, avant: Fichiers, f: Fichiers) {
    && (c.existe ==> c.bak.Some? && c.bak.value.Sauvegarde? && c.Vers() in avant
                     && Lire(f, c.bak.value) == Lire(avant, c.Vers()))
    && (!c.existe ==> c.bak.None? && c.Vers() !in avant)
  }

  ghost predicate Remettables(cs: seq<Candidat>, n: nat, avant: Fichiers, f: Fichiers)
    requires n <= |cs|
  {
    forall i | 0 <= i < n :: Remettable(cs[i], avant, f)
  }

  ghost function Cibles(cs: seq<Candidat>, n: nat): set<Chemin>
    requires n <= |cs|
  {
    set i | 0 <= i < n :: cs[i].Vers()
  }

  /** The first `n` files are what they were before the commit, except those of `restees`, which are what the
      way back found. */
  ghost predicate Remis(cs: seq<Candidat>, n: nat, avant: Fichiers, depart: Fichiers, f: Fichiers,
                        restees: set<Chemin>)
    requires n <= |cs|
  {
    forall i | 0 <= i < n ::
      Lire(f, cs[i].Vers()) == Lire(if cs[i].Vers() in restees then depart else avant, cs[i].Vers())
  }

  /** Every file of the group is as it was, except those of `restees`, which hold their candidates. */
  ghost predicate Laisses(cs: seq<Candidat>, avant: Fichiers, f: Fichiers, restees: set<Chemin>) {
    forall i | 0 <= i < |cs| ::
      Lire(f, cs[i].Vers()) == if cs[i].Vers() in restees then Some(cs[i].contenu) else Lire(avant, cs[i].Vers())
  }

  /** When is "the files already written are put back" (reconcilier.go:263) true?  Exactly when every file whose
      restoring step met something gone already had the content of its candidate. */
  lemma RemisVrai(cs: seq<Candidat>, avant: Fichiers, f: Fichiers, disparues: set<Chemin>)
    requires Laisses(cs, avant, f, disparues)
    ensures (forall i | 0 <= i < |cs| :: Lire(f, cs[i].Vers()) == Lire(avant, cs[i].Vers()))
        <==> forall i | 0 <= i < |cs| && cs[i].Vers() in disparues :: Lire(avant, cs[i].Vers()) == Some(cs[i].contenu)
  {
    hide Lire;
    if i :| 0 <= i < |cs| && cs[i].Vers() in disparues && Lire(avant, cs[i].Vers()) != Some(cs[i].contenu) {
      assert Lire(f, cs[i].Vers()) != Lire(avant, cs[i].Vers());
    }
  }

  /** Two files, the second cannot be renamed and the backup of the first is gone: the first keeps its new
      content, and nothing is reported. */
  lemma RemisMent() returns (cs: seq<Candidat>, avant: Fichiers, f: Fichiers, disparues: set<Chemin>)
    ensures |cs| == 2 && Distincts(cs) && disparues == {cs[0].Vers()} && Laisses(cs, avant, f, disparues)
    ensures forall i | 0 <= i < |cs| :: cs[i].existe && cs[i].Vers() in avant
    ensures Lire(f, cs[0].Vers()) != Lire(avant, cs[0].Vers())
  {
    var login, sshd := PileRegle("login", Gabarit([])), PileRegle("sshd", Gabarit([]));
    cs := [Candidat(login, "2", true, None, None), Candidat(sshd, "2", true, None, None)];
    var un, deux := cs[0].Vers(), cs[1].Vers();
    assert "login"[0] != "sshd"[0] && login.rel[|"etc/pam.d/"|] == 'l' && sshd.rel[|"etc/pam.d/"|] == 's';
    avant := map[un := "1", deux := "1"];
    f := avant[un := "2"];
    disparues := {un};
  }

  /** The first `n` candidates have been renamed, and nothing else moved. */
  ghost predicate Renommes(cs: seq<Candidat>, cs': seq<Candidat>, n: nat, avant: Fichiers, f: Fichiers)
    requires n <= |cs|
  {
    && MemesCandidats(cs, cs')
    && (forall i | 0 <= i < |cs| ::
          cs[i].tmp.Some? && cs'[i].bak == cs[i].bak && cs'[i].tmp == if i < n then None else cs[i].tmp)
    && (forall i | 0 <= i < n ::
          Lire(f, cs[i].Vers()) == Some(cs[i].contenu) && Lire(f, cs[i].tmp.value).None?)
    && (forall i | n <= i < |cs| :: Lire(f, cs[i].tmp.value) == Some(cs[i].contenu))
    && (forall c: Chemin | (!c.Cible? && !c.Temp?) || !DuGroupe(c.rel, cs[..n]) :: Lire(f, c) == Lire(avant, c))
    && (forall t: Chemin | t.Temp? && Lire(f, t).Some? :: Lire(avant, t).Some?)
  }

  lemma UnRenommage(cs: seq<Candidat>, cs': seq<Candidat>, n: nat, avant: Fichiers, f: Fichiers, f': Fichiers)
    requires n < |cs| && Distincts(cs) && TempsNotes(cs, map[]) && Renommes(cs, cs', n, avant, f)
    requires Lire(f', cs[n].Vers()) == Lire(f, cs[n].tmp.value) && Lire(f', cs[n].tmp.value).None?
    requires forall c: Chemin | c != cs[n].Vers() && c != cs[n].tmp.value :: Lire(f', c) == Lire(f, c)
    ensures Renommes(cs, cs'[n := cs'[n].(tmp := None)], n + 1, avant, f')
  {
    hide Lire;
    var d, t := cs[n].Vers(), cs[n].tmp.value;
    forall i | 0 <= i < |cs| && i != n
      ensures cs[i].Vers() !in {d, t} && cs[i].tmp.value !in {d, t}
    {
    }
    Racine.GroupePrefixe(cs, n);
    forall c: Chemin | (!c.Cible? && !c.Temp?) || !DuGroupe(c.rel, cs[..n + 1]) ensures Lire(f', c) == Lire(avant, c) {
      hide DuGroupe;
    }
    hide DuGroupe, Distincts, TempsNotes;
  }

  lemma RemettablesEncore(cs: seq<Candidat>, cs': seq<Candidat>, n: nat, avant: Fichiers, f: Fichiers, f': Fichiers)
    requires MemesCandidats(cs, cs') && n <= |cs| && Remettables(cs, |cs|, avant, f)
    requires forall i | 0 <= i < |cs| :: cs'[i].bak == cs[i].bak
    requires forall c: Chemin | c.Sauvegarde? :: Lire(f', c) == Lire(f, c)
    ensures Remettables(cs', n, avant, f')
  {
    hide Lire;
    forall i | 0 <= i < n ensures Remettable(cs'[i], avant, f') {
      assert Remettable(cs[i], avant, f);
    }
  }

  /** What the way back leaves, said of the whole group. */
  lemma RemisDonne(cs: seq<Candidat>, cs': seq<Candidat>, n: nat, avant: Fichiers, depart: Fichiers, f: Fichiers,
                   restees: set<Chemin>)
    requires MemesCandidats(cs, cs') && n <= |cs| && Distincts(cs) && restees <= Cibles(cs', n)
    requires Remis(cs', n, avant, depart, f, restees)
    requires forall i | 0 <= i < n :: Lire(depart, cs[i].Vers()) == Some(cs[i].contenu)
    requires forall i | n <= i < |cs| :: Lire(f, cs[i].Vers()) == Lire(avant, cs[i].Vers())
    ensures Laisses(cs, avant, f, restees) && restees <= Cibles(cs, |cs|)
  {
    hide Lire;
    forall i | 0 <= i < |cs| ensures cs'[i].Vers() == cs[i].Vers() && (cs[i].Vers() in restees ==> i < n) {
      if cs[i].Vers() in restees {
        var j :| 0 <= j < n && cs'[j].Vers() == cs[i].Vers();
        assert cs[j].regle.rel == cs[i].regle.rel;
      }
    }
  }

  lemma RienARemettre(cs: seq<Candidat>, avant: Fichiers, f: Fichiers)
    ensures Remis(cs, 0, avant, f, f, {}) && Cibles(cs, 0) == {}
  {
  }

  lemma UnRemettable(cs: seq<Candidat>, n: nat, k: nat, avant: Fichiers, f: Fichiers)
    requires k < n <= |cs| && Remettables(cs, n, avant, f)
    ensures Remettable(cs[k], avant, f)
  {
  }

  lemma UnRemisDePlus(cs: seq<Candidat>, n: nat, k: nat, avant: Fichiers, depart: Fichiers, f: Fichiers,
                      f': Fichiers, restees: set<Chemin>, r: Retour)
    requires k < n <= |cs| && Distincts(cs) && Remettables(cs, n, avant, f) && Remis(cs, k, avant, depart, f, restees)
    requires restees <= Cibles(cs, k) && Lire(f, cs[k].Vers()) == Lire(depart, cs[k].Vers())
    requires Lire(f', cs[k].Vers()) == Lire(if r == Rendu then avant else f, cs[k].Vers())
    requires forall d: Chemin | d != cs[k].Vers() && d != Remise(cs[k].regle.rel) :: Lire(f', d) == Lire(f, d)
    ensures Remettables(cs, n, avant, f') && Cibles(cs, k + 1) == Cibles(cs, k) + {cs[k].Vers()}
    ensures Remis(cs, k + 1, avant, depart, f', if r == Rendu then restees else restees + {cs[k].Vers()})
  {
    hide Lire, Remettables;
    assert forall i | 0 <= i < k :: cs[i].Vers() != cs[k].Vers();
    RemettablesToujours(cs, n, avant, f, f');
  }

  /** Only the backups count. */
  lemma RemettablesToujours(cs: seq<Candidat>, n: nat, avant: Fichiers, f: Fichiers, f': Fichiers)
    requires n <= |cs| && Remettables(cs, n, avant, f)
    requires forall c: Chemin | c.Sauvegarde? :: Lire(f', c) == Lire(f, c)
    ensures Remettables(cs, n, avant, f')
  {
    hide Lire;
    forall i | 0 <= i < n ensures Remettable(cs[i], avant, f') { assert Remettable(cs[i], avant, f); }
  }

  /** The files under the root.  Every operation may fail: `incidents` counts those that failed, refused validations
      included, with what they read in its place, and `retraitsRates` the removals among them.  `ratees` and
      `disparues` are the files of this commit whose restoring step failed, or met something gone, and `valides`
      holds the contents that `sshd -t` has accepted; `rechargements` and `rechargesRates` count the reloads of the
      ssh service and those that failed, `dconfAJour` the updates of dconf. */
  class Racine {
    var fichiers: Fichiers
    ghost var incidents: nat
    ghost var retraitsRates: nat
    ghost var ratees: set<Chemin>
    ghost var disparues: set<Chemin>
    ghost var valides: set<string>
    ghost var rechargements: nat
    ghost var rechargesRates: nat
    ghost var dconfAJour: nat

    constructor (f: Fichiers)
      ensures fichiers == f && incidents == retraitsRates == 0 && ratees == {} && disparues == {} && valides == {}
      ensures rechargements == rechargesRates == dconfAJour == 0
    {
      rechargements, rechargesRates, dconfAJour := 0, 0, 0;
      fichiers, incidents, retraitsRates, ratees, disparues, valides := f, 0, 0, {}, {}, {};
    }

    /** os.CreateTemp: a name nobody holds. */
    method CreerTemp(rel: string) returns (ok: bool, t: Chemin)
      modifies this`fichiers, this`incidents
      ensures incidents == old(incidents) + (if ok then 0 else 1)
      ensures t.Temp? && t.rel == rel
      ensures ok ==> t !in old(fichiers) && fichiers == old(fichiers)[t := ""]
      ensures !ok ==> fichiers == old(fichiers)
    {
      var n: nat :| true;
      t := Temp(rel, n);
      ok := *;
      if t in fichiers { ok := false; }
      if ok { fichiers := fichiers[t := ""]; } else { incidents := incidents + 1; }
    }

    /** A write that may stop half way. */
    method EcrireTemp(t: Chemin, contenu: string) returns (ok: bool)
      requires t in fichiers
      modifies this`fichiers, this`incidents
      ensures incidents == old(incidents) + (if ok then 0 else 1)
      ensures t in fichiers && (ok ==> fichiers[t] == contenu)
      ensures forall c: Chemin | c != t :: Lire(fichiers, c) == Lire(old(fichiers), c)
    {
      ok := *;
      var partiel: string :| true;
      fichiers := fichiers[t := if ok then contenu else partiel];
      incidents := incidents + (if ok then 0 else 1);
    }

    /** `copierFichier`: the copy may stop half way. */
    method Copier(src: Chemin, dst: Chemin) returns (ok: bool)
      modifies this`fichiers, this`incidents
      ensures incidents == old(incidents) + (if ok || src !in old(fichiers) then 0 else 1)
      ensures ok ==> src in old(fichiers) && Lire(fichiers, dst) == Lire(old(fichiers), src)
      ensures forall c: Chemin | c != dst :: Lire(fichiers, c) == Lire(old(fichiers), c)
    {
      ok := false;
      if src !in fichiers { return; }
      var ouvert: bool := *;
      if ouvert {
        ok := *;
        var partiel: string :| true;
        fichiers := fichiers[dst := if ok then fichiers[src] else partiel];
      }
      incidents := incidents + (if ok then 0 else 1);
    }

    /** rename: all or nothing. */
    method Renommer(src: Chemin, dst: Chemin) returns (ok: bool)
      requires src != dst
      modifies this`fichiers, this`incidents
      ensures incidents == old(incidents) + (if ok || src !in old(fichiers) then 0 else 1)
      ensures ok ==> src in old(fichiers) && Lire(fichiers, dst) == Lire(old(fichiers), src) && src !in fichiers
      ensures forall c: Chemin | c != dst && c != src :: Lire(fichiers, c) == Lire(old(fichiers), c)
      ensures !ok ==> fichiers == old(fichiers)
    {
      ok := *;
      if src !in fichiers { ok := false; }
      incidents := incidents + (if ok || src !in fichiers then 0 else 1);
      if ok { fichiers := (fichiers - {src})[dst := fichiers[src]]; }
    }

    /** os.Remove: a file that is not there is no failure. */
    method Retirer(c: Chemin) returns (ok: bool)
      modifies this`fichiers, this`incidents, this`retraitsRates
      ensures incidents == old(incidents) + (if ok then 0 else 1)
      ensures ok ==> c !in fichiers
      ensures retraitsRates == old(retraitsRates) + (if ok then 0 else 1)
      ensures forall d: Chemin | d != c :: Lire(fichiers, d) == Lire(old(fichiers), d)
      ensures !ok ==> fichiers == old(fichiers)
    {
      ok := *;
      if c !in fichiers { ok := true; }
      if ok {
        fichiers := fichiers - {c};
      } else {
        incidents, retraitsRates := incidents + 1, retraitsRates + 1;
      }
    }

    /** `sshd -t -f` on a candidate */
    method ValiderSSHD(t: Chemin) returns (ok: bool)
      requires t in fichiers
      modifies this`incidents, this`valides
      ensures incidents == old(incidents) + (if ok then 0 else 1)
      ensures valides == if ok then old(valides) + {fichiers[t]} else old(valides)
    {
      ok := *;
      if ok { valides := valides + {fichiers[t]}; } else { incidents := incidents + 1; }
    }

    /** A command that changes no file: directories, modes, owners, labels. */
    method Commande() returns (ok: bool)
      modifies this`incidents
      ensures incidents == old(incidents) + (if ok then 0 else 1)
    {
      ok := *;
      if !ok { incidents := incidents + 1; }
    }

    /** `systemctl try-reload-or-restart` */
    method Recharger() returns (ok: bool)
      modifies this`incidents, this`rechargements, this`rechargesRates
      ensures incidents == old(incidents) + (if ok then 0 else 1)
      ensures rechargements == old(rechargements) + 1
      ensures rechargesRates == old(rechargesRates) + (if ok then 0 else 1)
    {
      ok := *;
      rechargements := rechargements + 1;
      if !ok { incidents, rechargesRates := incidents + 1, rechargesRates + 1; }
    }

    /** `dconf update`, its result ignored */
    method MettreDconfAJour()
      modifies this`dconfAJour
      ensures dconfAJour == old(dconfAJour) + 1
    {
      dconfAJour := dconfAJour + 1;
    }

    // --- the way back -----------------------------------------------------------------

    /** `restaurer` */
    method Restaurer(bak: Chemin, rel: string) returns (r: Retour)
      requires bak.Sauvegarde?
      modifies this`fichiers, this`incidents, this`retraitsRates
      ensures incidents >= old(incidents)
      ensures r != Rendu && bak in old(fichiers) ==> incidents > old(incidents)
      ensures retraitsRates >= old(retraitsRates)
      ensures Lire(fichiers, Cible(rel)) == Lire(old(fichiers), if r == Rendu then bak else Cible(rel))
      ensures retraitsRates == old(retraitsRates) ==> Lire(fichiers, Remise(rel)).None?
      ensures forall c: Chemin | c != Cible(rel) && c != Remise(rel) :: Lire(fichiers, c) == Lire(old(fichiers), c)
    {
      var tmp := Remise(rel);
      var disparu: bool := *;
      r := if disparu then Disparu else Rate;
      var ok := Copier(bak, tmp);
      if !ok {
        var _ := Retirer(tmp);
        return;
      }
      ok := Renommer(tmp, Cible(rel));
      if !ok {
        var _ := Retirer(tmp);
        return;
      }
      r := Rendu;
    }

    /** `remettre`: going on past a failure. */
    method Remettre(cs: seq<Candidat>, n: nat, ghost avant: Fichiers) returns (echecs: nat)
      requires n <= |cs| && Distincts(cs) && Remettables(cs, n, avant, fichiers) && ratees == disparues == {}
      modifies this`fichiers, this`incidents, this`retraitsRates, this`ratees, this`disparues
      ensures incidents >= old(incidents) + (if ratees + disparues == {} then 0 else 1)
      ensures (echecs == 0 <==> ratees == {}) && retraitsRates >= old(retraitsRates)
      ensures ratees + disparues <= Cibles(cs, n)
      ensures Remis(cs, n, avant, old(fichiers), fichiers, ratees + disparues)
      ensures retraitsRates == old(retraitsRates) ==> forall c: Chemin | c.Remise? && Lire(fichiers, c).Some? ::
          Lire(old(fichiers), c).Some?
      ensures forall c: Chemin |
          (!c.Cible? && !c.Remise?) || !DuGroupe(c.rel, cs) || (c.Cible? && !DuGroupe(c.rel, cs[..n])) ::
                Lire(fichiers, c) == Lire(old(fichiers), c)
    {
      hide DuGroupe, Remettables, Distincts, Remis, Cibles;
      echecs := 0;
      RienARemettre(cs, avant, fichiers);
      assert ratees + disparues == {};
      for k := 0 to n
        invariant incidents >= old(incidents) + (if ratees + disparues == {} then 0 else 1)
        invariant (echecs == 0 <==> ratees == {}) && retraitsRates >= old(retraitsRates)
        invariant ratees + disparues <= Cibles(cs, k) && Remettables(cs, n, avant, fichiers)
        invariant Remis(cs, k, avant, old(fichiers), fichiers, ratees + disparues)
        invariant retraitsRates == old(retraitsRates) ==> forall c: Chemin | c.Remise? && Lire(fichiers, c).Some? ::
            Lire(old(fichiers), c).Some?
        invariant forall c: Chemin |
            (!c.Cible? && !c.Remise?) || !DuGroupe(c.rel, cs) || (c.Cible? && !DuGroupe(c.rel, cs[..k])) ::
                    Lire(fichiers, c) == Lire(old(fichiers), c)
      {
        SousGroupe(cs, k);
        ghost var f, restees := fichiers, ratees + disparues;
        assert Remettable(cs[k], avant, f) by { UnRemettable(cs, n, k, avant, f); }
        var r := RemettreUn(cs[k], avant);
        UnRemisDePlus(cs, n, k, avant, old(fichiers), f, fichiers, restees, r);
        if r == Rate {
          echecs := echecs + 1;
          ratees := ratees + {cs[k].Vers()};
        } else if r == Disparu {
          disparues := disparues + {cs[k].Vers()};
        }
        assert ratees + disparues == if r == Rendu then restees else restees + {cs[k].Vers()};
        GroupePrefixe(cs, k);
      }
    }

    static lemma GroupePrefixe(cs: seq<Candidat>, k: nat)
      requires k < |cs|
      ensures forall r :: DuGroupe(r, cs[..k + 1]) <==> DuGroupe(r, cs[..k]) || r == cs[k].regle.rel
      ensures DuGroupe(cs[k].regle.rel, cs)
    {
      var a, b := cs[..k], cs[..k + 1];
      assert forall i | 0 <= i < k :: a[i] == b[i];
      assert b[k] == cs[k];
      forall r ensures DuGroupe(r, b) <==> DuGroupe(r, a) || r == cs[k].regle.rel {
        if DuGroupe(r, a) {
          var i :| 0 <= i < k && a[i].regle.rel == r;
          assert b[i].regle.rel == r;
        }
      }
    }

    method RemettreUn(c: Candidat, ghost avant: Fichiers) returns (r: Retour)
      requires Remettable(c, avant, fichiers)
      modifies this`fichiers, this`incidents, this`retraitsRates
      ensures incidents >= old(incidents) + (if r == Rendu then 0 else 1)
      ensures retraitsRates >= old(retraitsRates)
      ensures Lire(fichiers, c.Vers()) == Lire(if r == Rendu then avant else old(fichiers), c.Vers())
      ensures retraitsRates == old(retraitsRates) && Lire(fichiers, Remise(c.regle.rel)).Some? ==>
          Lire(old(fichiers), Remise(c.regle.rel)).Some?
      ensures forall d: Chemin | d != c.Vers() && d != Remise(c.regle.rel) ::
          Lire(fichiers, d) == Lire(old(fichiers), d)
    {
      match c.bak
      case None =>
        var ok := Retirer(c.Vers());
        r := if ok then Rendu else Rate;
      case Some(b) => r := Restaurer(b, c.regle.rel);
    }

    // --- the three loops ----------------------------------------------------------------

    /** Candidates laid next to their files, and checked. */
    method Preparer(cs: seq<Candidat>) returns (ok: bool, cs': seq<Candidat>)
      requires Distincts(cs) && forall i | 0 <= i < |cs| :: cs[i].tmp.None? && cs[i].bak.None?
      modifies this`fichiers, this`incidents, this`valides
      ensures incidents >= old(incidents) + (if ok then 0 else 1)
      ensures MemesCandidats(cs, cs') && TempsNotes(cs', old(fichiers)) && TempsConnus(cs', old(fichiers), fichiers)
      ensures ok ==> Valides(cs)
      ensures forall i | 0 <= i < |cs| :: cs'[i].bak.None?
      ensures ok ==> TempsPrets(cs', 0)
      ensures forall c: Chemin | !c.Temp? || Lire(old(fichiers), c).Some? :: Lire(fichiers, c) == Lire(old(fichiers), c)
    {
      cs' := cs;
      ok := true;
      assert TempsConnus(cs', fichiers, fichiers);
      hide TempsConnus;
      for i := 0 to |cs|
        invariant incidents >= old(incidents)
        invariant MemesCandidats(cs, cs') && TempsNotes(cs', old(fichiers)) && TempsConnus(cs', old(fichiers), fichiers)
        invariant forall k | 0 <= k < |cs| :: cs'[k].bak.None? && (i <= k ==> cs'[k].tmp.None?)
        invariant forall k | 0 <= k < i :: cs'[k].tmp.Some? && Lire(fichiers, cs'[k].tmp.value) == Some(cs[k].contenu)
        invariant forall k | 0 <= k < i :: cs[k].regle.validerSSHD ==> cs[k].contenu in valides
        invariant forall c: Chemin | !c.Temp? || Lire(old(fichiers), c).Some? ::
            Lire(fichiers, c) == Lire(old(fichiers), c)
      {
        ghost var av, f := cs', fichiers;
        var t: Option<Chemin>;
        ok, t := PreparerUn(cs[i].regle, cs[i].contenu);
        cs' := cs'[i := cs'[i].(tmp := t)];
        TempsSuivants(av, cs', i, old(fichiers), f, fichiers);
        if !ok { return; }
      }
    }

    /** What `sshd -t` has to accept has been accepted. */
    ghost predicate Valides(cs: seq<Candidat>)
      reads this`valides
    {
      forall i | 0 <= i < |cs| :: cs[i].regle.validerSSHD ==> cs[i].contenu in valides
    }

    /** The temporaries of the candidates from `k` on hold their contents. */
    ghost predicate TempsPrets(cs: seq<Candidat>, k: nat)
      reads this`fichiers
    {
      forall i | k <= i < |cs| :: cs[i].tmp.Some? && Lire(fichiers, cs[i].tmp.value) == Some(cs[i].contenu)
    }

    method PreparerUn(r: Regle, contenu: string) returns (ok: bool, t: Option<Chemin>)
      modifies this`fichiers, this`incidents, this`valides
      ensures incidents >= old(incidents) + (if ok then 0 else 1)
      ensures old(valides) <= valides && (ok && r.validerSSHD ==> contenu in valides)
      ensures t.Some? ==> t.value.Temp? && t.value.rel == r.rel && Lire(old(fichiers), t.value).None?
      ensures ok ==> t.Some? && Lire(fichiers, t.value) == Some(contenu)
      ensures forall c: Chemin | t != Some(c) :: Lire(fichiers, c) == Lire(old(fichiers), c)
    {
      t := None;
      ok := Commande();
      if !ok { return; }
      var cree, nom := CreerTemp(r.rel);
      if !cree { return false, t; }
      t := Some(nom);
      ok := EcrireTemp(nom, contenu);
      if !ok { return; }
      ok := Commande();
      if !ok { return; }
      if r.validerSSHD { ok := ValiderSSHD(nom); }
    }

    static lemma TempsSuivants(cs: seq<Candidat>, cs': seq<Candidat>, i: nat, avant: Fichiers, f: Fichiers,
        f': Fichiers)
      requires i < |cs| == |cs'| && cs' == cs[i := cs'[i]] && cs[i].tmp.None? && TempsConnus(cs, avant, f)
      requires forall c: Chemin | cs'[i].tmp != Some(c) :: Lire(f', c) == Lire(f, c)
      ensures TempsConnus(cs', avant, f')
    {
      forall t: Chemin | t.Temp? && t in f' && t !in avant ensures exists k | 0 <= k < |cs'| :: cs'[k].tmp == Some(t) {
        if cs'[i].tmp != Some(t) {
          assert Lire(f', t) == Lire(f, t);
          var k :| 0 <= k < |cs| && cs[k].tmp == Some(t);
          assert cs'[k].tmp == Some(t);
        }
      }
    }

    /** Backups, under the name of this pass. */
    method Sauver(cs: seq<Candidat>, horodatage: string) returns (ok: bool, cs': seq<Candidat>)
      requires Distincts(cs) && forall i | 0 <= i < |cs| :: cs[i].bak.None?
      requires forall i | 0 <= i < |cs| && cs[i].existe :: Lire(fichiers, cs[i].Vers()).Some?
      modifies this`fichiers, this`incidents
      ensures incidents >= old(incidents) + (if ok then 0 else 1)
      ensures MemesCandidats(cs, cs') && forall i | 0 <= i < |cs| :: cs'[i].tmp == cs[i].tmp
      ensures forall i | 0 <= i < |cs| :: cs'[i].bak in {None, Some(Sauvegarde(cs[i].regle.rel, horodatage))}
      ensures ok ==> forall i | 0 <= i < |cs| ::
                if cs[i].existe
                then cs'[i].bak.Some? && Lire(fichiers, cs'[i].bak.value) == Lire(old(fichiers), cs[i].Vers())
                else cs'[i].bak.None?
      ensures forall c: Chemin | !c.Sauvegarde? || c.horodatage != horodatage || !DuGroupe(c.rel, cs) ::
                Lire(fichiers, c) == Lire(old(fichiers), c)
    {
      cs' := cs;
      ok := true;
      for i := 0 to |cs|
        invariant incidents >= old(incidents)
        invariant MemesCandidats(cs, cs') && forall k | 0 <= k < |cs| :: cs'[k].tmp == cs[k].tmp
        invariant forall k | 0 <= k < |cs| :: cs'[k].bak in {None, Some(Sauvegarde(cs[k].regle.rel, horodatage))}
        invariant forall k | i <= k < |cs| :: cs'[k].bak.None?
        invariant forall k | 0 <= k < i ::
                    if cs[k].existe
                    then cs'[k].bak.Some? && Lire(fichiers, cs'[k].bak.value) == Lire(old(fichiers), cs[k].Vers())
                    else cs'[k].bak.None?
        invariant forall c: Chemin | !c.Sauvegarde? || c.horodatage != horodatage || !DuGroupe(c.rel, cs) ::
                    Lire(fichiers, c) == Lire(old(fichiers), c)
      {
        if !cs[i].existe { continue; }
        ok := Commande();
        if !ok { return; }
        var bak := Sauvegarde(cs[i].regle.rel, horodatage);
        cs' := cs'[i := cs'[i].(bak := Some(bak))];
        assert Lire(fichiers, cs[i].Vers()) == Lire(old(fichiers), cs[i].Vers());
        ok := Copier(cs[i].Vers(), bak);
        if !ok { return; }
      }
    }

    /** The renames, up to the first that fails. */
    method Renommages(cs: seq<Candidat>) returns (poses: nat, cs': seq<Candidat>)
      requires Distincts(cs) && TempsNotes(cs, map[]) && TempsPrets(cs, 0)
      modifies this`fichiers, this`incidents
      ensures incidents >= old(incidents) + (if poses == |cs| then 0 else 1)
      ensures poses <= |cs| && MemesCandidats(cs, cs')
      ensures forall i | 0 <= i < |cs| :: cs'[i].bak == cs[i].bak && cs'[i].tmp == if i < poses then None else cs[i].tmp
      ensures forall i | 0 <= i < poses ::
          Lire(fichiers, cs[i].Vers()) == Some(cs[i].contenu) && Lire(fichiers, cs[i].tmp.value).None?
      ensures forall c: Chemin | (!c.Cible? && !c.Temp?) || !DuGroupe(c.rel, cs[..poses]) ::
          Lire(fichiers, c) == Lire(old(fichiers), c)
      ensures forall t: Chemin | t.Temp? && Lire(fichiers, t).Some? :: Lire(old(fichiers), t).Some?
    {
      cs' := cs;
      poses := 0;
      while poses < |cs|
        invariant incidents >= old(incidents)
        invariant poses <= |cs| && Renommes(cs, cs', poses, old(fichiers), fichiers)
      {
        ghost var f := fichiers;
        var ok := Renommer(cs[poses].tmp.value, cs[poses].Vers());
        if !ok { return; }
        UnRenommage(cs, cs', poses, old(fichiers), f, fichiers);
        cs' := cs'[poses := cs'[poses].(tmp := None)];
        poses := poses + 1;
      }
    }

    /** The temporaries left are removed, whatever happened. */
    method Nettoyer(cs: seq<Candidat>)
      requires forall i | 0 <= i < |cs| && cs[i].tmp.Some? :: cs[i].tmp.value.Temp?
      modifies this`fichiers, this`incidents, this`retraitsRates
      ensures incidents >= old(incidents)
      ensures retraitsRates >= old(retraitsRates)
      ensures retraitsRates == old(retraitsRates) ==> forall i | 0 <= i < |cs| && cs[i].tmp.Some? ::
          Lire(fichiers, cs[i].tmp.value).None?
      ensures forall t: Chemin | t.Temp? && Lire(fichiers, t).Some? :: Lire(old(fichiers), t).Some?
      ensures forall c: Chemin | !c.Temp? || !(exists i | 0 <= i < |cs| :: cs[i].tmp == Some(c)) ::
          Lire(fichiers, c) == Lire(old(fichiers), c)
    {
      for k := 0 to |cs|
        invariant incidents >= old(incidents)
        invariant retraitsRates >= old(retraitsRates)
        invariant retraitsRates == old(retraitsRates) ==> forall i | 0 <= i < k && cs[i].tmp.Some? ::
            Lire(fichiers, cs[i].tmp.value).None?
        invariant forall t: Chemin | t.Temp? && Lire(fichiers, t).Some? :: Lire(old(fichiers), t).Some?
        invariant forall c: Chemin | !c.Temp? || !(exists i | 0 <= i < |cs| :: cs[i].tmp == Some(c)) ::
            Lire(fichiers, c) == Lire(old(fichiers), c)
      {
        if cs[k].tmp.Some? { var _ := Retirer(cs[k].tmp.value); }
      }
    }

    /** Renames, or the way back. */
    method Poser(cs: seq<Candidat>, ghost avant: Fichiers) returns (issue: Issue, cs': seq<Candidat>)
      requires ratees == disparues == {}
      requires Distincts(cs) && TempsNotes(cs, avant) && TempsPrets(cs, 0) && Remettables(cs, |cs|, avant, fichiers)
      requires forall i | 0 <= i < |cs| :: Lire(fichiers, cs[i].Vers()) == Lire(avant, cs[i].Vers())
      modifies this`fichiers, this`incidents, this`retraitsRates, this`ratees, this`disparues
      ensures incidents >= old(incidents) + (if issue == Ecrit then 0 else 1)
      ensures incidents >= old(incidents) + (if ratees + disparues == {} then 0 else 2)
      ensures MemesCandidats(cs, cs') && retraitsRates >= old(retraitsRates)
      ensures forall i | 0 <= i < |cs| :: cs'[i].tmp in {None, cs[i].tmp}
      ensures forall i | 0 <= i < |cs| && cs'[i].tmp.None? :: Lire(fichiers, cs[i].tmp.value).None?
      ensures ToutOuRien(cs, avant, issue)
      ensures forall c: Chemin | c.Autre? || c.Sauvegarde? || !DuGroupe(c.rel, cs) ::
          Lire(fichiers, c) == Lire(old(fichiers), c)
      ensures forall t: Chemin | t.Temp? && Lire(fichiers, t).Some? :: Lire(old(fichiers), t).Some?
      ensures retraitsRates == old(retraitsRates) ==> forall c: Chemin | c.Remise? && Lire(fichiers, c).Some? ::
          Lire(old(fichiers), c).Some?
    {
      hide DuGroupe, Remettables, Distincts, Remis, Laisses, Cibles;
      var poses;
      ghost var depart := fichiers;
      poses, cs' := Renommages(cs);
      SousGroupe(cs, poses);
      if poses == |cs| {
        var _ := Commande();
        return Ecrit, cs';
      }
      SousGroupe(cs', poses);
      GroupesEgaux(cs, cs', poses);
      DistinctsEncore(cs, cs');
      RemettablesEncore(cs, cs', poses, avant, depart, fichiers);
      ghost var milieu := fichiers;
      var echecs := Remettre(cs', poses, avant);
      assert forall i | poses <= i < |cs| :: Lire(fichiers, cs[i].Vers()) == Lire(avant, cs[i].Vers());
      RemisDonne(cs, cs', poses, avant, milieu, fichiers, ratees + disparues);
      issue := if echecs > 0 then RemiseIncomplete else Refuse;
    }

    static lemma SousGroupe(cs: seq<Candidat>, n: nat)
      requires n <= |cs|
      ensures forall r | DuGroupe(r, cs[..n]) :: DuGroupe(r, cs)
      ensures Distincts(cs) ==> forall i | n <= i < |cs| :: !DuGroupe(cs[i].regle.rel, cs[..n])
      ensures forall i | 0 <= i < |cs| :: DuGroupe(cs[i].regle.rel, cs)
    {
    }

    static lemma DistinctsEncore(cs: seq<Candidat>, cs': seq<Candidat>)
      requires MemesCandidats(cs, cs') && Distincts(cs)
      ensures Distincts(cs')
    {
    }

    static lemma GroupesEgaux(cs: seq<Candidat>, cs': seq<Candidat>, n: nat)
      requires MemesCandidats(cs, cs') && n <= |cs|
      ensures forall r :: DuGroupe(r, cs) <==> DuGroupe(r, cs')
      ensures forall r :: DuGroupe(r, cs[..n]) <==> DuGroupe(r, cs'[..n])
    {
      forall r ensures DuGroupe(r, cs) <==> DuGroupe(r, cs') {
        if DuGroupe(r, cs) {
          var i :| 0 <= i < |cs| && cs[i].regle.rel == r;
          assert cs'[i].regle.rel == r;
        }
      }
      forall r ensures DuGroupe(r, cs[..n]) <==> DuGroupe(r, cs'[..n]) {
        if DuGroupe(r, cs[..n]) {
          var i :| 0 <= i < n && cs[..n][i].regle.rel == r;
          assert cs'[..n][i].regle.rel == r;
        }
      }
    }

    /** The group as the commit leaves it: all written, or all as it was, except exactly the files whose restoring
        step failed, which is reported, or met something gone, which is not; those hold their candidates. */
    ghost predicate ToutOuRien(cs: seq<Candidat>, avant: Fichiers, issue: Issue)
      reads this`fichiers, this`ratees, this`disparues
    {
      && (issue == RemiseIncomplete <==> ratees != {})
      && ratees + disparues <= Cibles(cs, |cs|)
      && if issue == Ecrit then
           disparues == {} && forall i | 0 <= i < |cs| :: Lire(fichiers, cs[i].Vers()) == Some(cs[i].contenu)
         else Laisses(cs, avant, fichiers, ratees + disparues)
    }

    /** The outcome does not depend on the temporaries and backups noted. */
    lemma MemeIssue(cs: seq<Candidat>, cs': seq<Candidat>, avant: Fichiers, issue: Issue)
      requires MemesCandidats(cs, cs')
      ensures ToutOuRien(cs, avant, issue) <==> ToutOuRien(cs', avant, issue)
    {
      hide Lire;
      assert forall i | 0 <= i < |cs| :: cs'[i].Vers() == cs[i].Vers();
      assert Cibles(cs, |cs|) == Cibles(cs', |cs|);
    }

    /** What a commit leaves alone, and its leftovers. */
    ghost predicate Ailleurs(cs: seq<Candidat>, avant: Fichiers, horodatage: string)
      reads this`fichiers
    {
      forall c: Chemin | c.Autre? || (c.Sauvegarde? && c.horodatage != horodatage) || !DuGroupe(c.rel, cs) ::
        Lire(fichiers, c) == Lire(avant, c)
    }

    ghost predicate SansReste(avant: Fichiers)
      reads this`fichiers
    {
      forall c: Chemin | (c.Temp? || c.Remise?) && Lire(fichiers, c).Some? :: Lire(avant, c).Some?
    }

    /** Every candidate laid, backed up: the renames, then the temporaries. */
    method Conclure(cs: seq<Candidat>, ghost avant: Fichiers) returns (issue: Issue)
      requires ratees == disparues == {}
      requires Distincts(cs) && TempsNotes(cs, avant) && TempsPrets(cs, 0) && Remettables(cs, |cs|, avant, fichiers)
      requires TempsConnus(cs, avant, fichiers)
      requires forall c: Chemin | c.Cible? || c.Remise? :: Lire(fichiers, c) == Lire(avant, c)
      modifies this`fichiers, this`incidents, this`retraitsRates, this`ratees, this`disparues
      ensures incidents >= old(incidents) + (if issue == Ecrit then 0 else 1)
      ensures incidents >= old(incidents) + (if ratees + disparues == {} then 0 else 2)
      ensures ToutOuRien(cs, avant, issue)
      ensures forall c: Chemin | c.Autre? || c.Sauvegarde? || !DuGroupe(c.rel, cs) ::
          Lire(fichiers, c) == Lire(old(fichiers), c)
      ensures retraitsRates >= old(retraitsRates)
      ensures retraitsRates == old(retraitsRates) ==> SansReste(avant)
    {
      hide DuGroupe, Remettables, Distincts, MemesCandidats;
      var restes;
      issue, restes := Poser(cs, avant);
      RestesConnus(cs, restes, avant, fichiers);
      Nettoyer(restes);
    }

    /** A refusal before any rename: only the temporaries have to go. */
    method Abandonner(cs: seq<Candidat>, ghost avant: Fichiers)
      requires ratees == disparues == {} && TempsNotes(cs, avant) && TempsConnus(cs, avant, fichiers)
      requires forall c: Chemin | c.Cible? || c.Remise? :: Lire(fichiers, c) == Lire(avant, c)
      modifies this`fichiers, this`incidents, this`retraitsRates
      ensures incidents >= old(incidents)
      ensures ToutOuRien(cs, avant, Refuse)
      ensures forall c: Chemin | !c.Temp? || !DuGroupe(c.rel, cs) :: Lire(fichiers, c) == Lire(old(fichiers), c)
      ensures retraitsRates >= old(retraitsRates)
      ensures retraitsRates == old(retraitsRates) ==> SansReste(avant)
    {
      hide DuGroupe;
      TempsDansGroupe(cs, avant);
      Nettoyer(cs);
    }

    static lemma TempsDansGroupe(cs: seq<Candidat>, avant: Fichiers)
      requires TempsNotes(cs, avant)
      ensures forall c: Chemin | (exists i | 0 <= i < |cs| :: cs[i].tmp == Some(c)) :: DuGroupe(c.rel, cs)
    {
    }

    /** After the renames, a temporary still there is still noted. */
    static lemma RestesConnus(cs: seq<Candidat>, restes: seq<Candidat>, avant: Fichiers, f: Fichiers)
      requires MemesCandidats(cs, restes) && TempsNotes(cs, avant)
      requires forall i | 0 <= i < |cs| :: cs[i].tmp.Some? && restes[i].tmp in {None, cs[i].tmp}
      requires forall i | 0 <= i < |cs| && restes[i].tmp.None? :: Lire(f, cs[i].tmp.value).None?
      requires forall t: Chemin | t.Temp? && t in f && t !in avant :: exists i | 0 <= i < |cs| :: cs[i].tmp == Some(t)
      ensures |restes| == |cs| && TempsConnus(restes, avant, f) && TempsNotes(restes, avant)
      ensures forall c: Chemin | (exists i | 0 <= i < |restes| :: restes[i].tmp == Some(c)) :: DuGroupe(c.rel, cs)
    {
      forall t: Chemin | t.Temp? && t in f && t !in avant ensures exists k | 0 <= k < |restes| ::
          restes[k].tmp == Some(t) {
        var k :| 0 <= k < |cs| && cs[k].tmp == Some(t);
        assert restes[k].tmp == Some(t);
      }
    }

    method Engager(cs: seq<Candidat>, horodatage: string, ghost avant: Fichiers) returns (issue: Issue)
      requires ratees == disparues == {}
      requires Distincts(cs) && TempsNotes(cs, avant) && TempsPrets(cs, 0) && TempsConnus(cs, avant, fichiers)
      requires forall i | 0 <= i < |cs| :: cs[i].bak.None? && (cs[i].existe <==> Lire(avant, cs[i].Vers()).Some?)
      requires forall c: Chemin | !c.Temp? :: Lire(fichiers, c) == Lire(avant, c)
      modifies this`fichiers, this`incidents, this`retraitsRates, this`ratees, this`disparues
      ensures incidents >= old(incidents) + (if issue == Ecrit then 0 else 1)
      ensures incidents >= old(incidents) + (if ratees + disparues == {} then 0 else 2)
      ensures ToutOuRien(cs, avant, issue)
      ensures forall c: Chemin | c.Autre? || (c.Sauvegarde? && c.horodatage != horodatage) || !DuGroupe(c.rel, cs) ::
                Lire(fichiers, c) == Lire(old(fichiers), c)
      ensures retraitsRates >= old(retraitsRates)
      ensures retraitsRates == old(retraitsRates) ==> SansReste(avant)
    {
      hide TempsNotes, TempsConnus, Distincts, Remettables, ToutOuRien, SansReste;
      var ok, gardes := Sauver(cs, horodatage);
      SousGroupe(cs, 0);
      GroupesEgaux(cs, gardes, 0);
      DistinctsEncore(cs, gardes);
      TempsEncoreConnus(cs, gardes, avant, old(fichiers), fichiers);
      if !ok {
        Abandonner(gardes, avant);
        MemeIssue(cs, gardes, avant, Refuse);
        return Refuse;
      }
      ToutGarde(cs, gardes, avant, old(fichiers), fichiers);
      issue := Conclure(gardes, avant);
      MemeIssue(cs, gardes, avant, issue);
    }

    /** Once backed up, every candidate can be put back. */
    static lemma ToutGarde(cs: seq<Candidat>, cs': seq<Candidat>, avant: Fichiers, depart: Fichiers, f: Fichiers)
      requires MemesCandidats(cs, cs')
      requires forall i | 0 <= i < |cs| :: cs[i].existe <==> Lire(avant, cs[i].Vers()).Some?
      requires forall c: Chemin | c.Cible? :: Lire(depart, c) == Lire(avant, c)
      requires forall i | 0 <= i < |cs| ::
                 if cs[i].existe
                 then cs'[i].bak.Some? && cs'[i].bak.value.Sauvegarde?
                      && Lire(f, cs'[i].bak.value) == Lire(depart, cs[i].Vers())
                 else cs'[i].bak.None?
      ensures Remettables(cs', |cs'|, avant, f)
    {
      forall i | 0 <= i < |cs| ensures Remettable(cs'[i], avant, f) {
        assert cs'[i].Vers() == cs[i].Vers();
      }
    }

    static lemma TempsEncoreConnus(cs: seq<Candidat>, cs': seq<Candidat>, avant: Fichiers, f: Fichiers, f': Fichiers)
      requires MemesCandidats(cs, cs') && TempsConnus(cs, avant, f)
      requires forall i | 0 <= i < |cs| :: cs'[i].tmp == cs[i].tmp
      requires forall c: Chemin | c.Temp? :: Lire(f', c) == Lire(f, c)
      ensures TempsConnus(cs', avant, f') && (TempsNotes(cs, avant) ==> TempsNotes(cs', avant))
    {
      forall t: Chemin | t.Temp? && t in f' && t !in avant ensures exists k | 0 <= k < |cs'| :: cs'[k].tmp == Some(t) {
        assert Lire(f', t) == Lire(f, t);
        var k :| 0 <= k < |cs| && cs[k].tmp == Some(t);
        assert cs'[k].tmp == Some(t);
      }
    }

    /** `ecrireGroupe` */
    method EcrireGroupe(cs: seq<Candidat>, horodatage: string) returns (issue: Issue)
      requires Distincts(cs) && forall i | 0 <= i < |cs| :: cs[i].tmp.None? && cs[i].bak.None?
      requires forall i | 0 <= i < |cs| :: cs[i].existe <==> Lire(fichiers, cs[i].Vers()).Some?
      modifies this`fichiers, this`incidents, this`retraitsRates, this`ratees, this`disparues, this`valides
      ensures incidents >= old(incidents) + (if issue == Ecrit then 0 else 1)
      ensures incidents >= old(incidents) + (if ratees + disparues == {} then 0 else 2)
      ensures ToutOuRien(cs, old(fichiers), issue)
      ensures issue == Ecrit ==> Valides(cs)
      ensures Ailleurs(cs, old(fichiers), horodatage)
      ensures retraitsRates >= old(retraitsRates)
      ensures retraitsRates == old(retraitsRates) ==> SansReste(old(fichiers))
    {
      hide ToutOuRien, SansReste, Distincts, TempsNotes, TempsConnus;
      ghost var avant := fichiers;
      ratees, disparues := {}, {};
      var ok, prets := Preparer(cs);
      SousGroupe(cs, 0);
      GroupesEgaux(cs, prets, 0);
      DistinctsEncore(cs, prets);
      TempsDuGroupe(cs, prets, avant, fichiers);
      if !ok {
        Abandonner(prets, avant);
        MemeIssue(cs, prets, avant, Refuse);
        return Refuse;
      }
      issue := Engager(prets, horodatage, avant);
      MemeIssue(cs, prets, avant, issue);
    }

    /** A temporary of another file is not touched. */
    static lemma TempsDuGroupe(cs: seq<Candidat>, cs': seq<Candidat>, avant: Fichiers, f: Fichiers)
      requires MemesCandidats(cs, cs') && TempsNotes(cs', avant) && TempsConnus(cs', avant, f)
      requires forall c: Chemin | !c.Temp? || Lire(avant, c).Some? :: Lire(f, c) == Lire(avant, c)
      ensures forall c: Chemin | !DuGroupe(c.rel, cs) :: Lire(f, c) == Lire(avant, c)
    {
      forall c: Chemin | c.Temp? && c in f && c !in avant ensures DuGroupe(c.rel, cs) {
        var k :| 0 <= k < |cs'| && cs'[k].tmp == Some(c);
        assert cs[k].regle.rel == c.rel;
      }
    }
  }
}
