/** The files of the machine as the scan sees them. */
module Disques {
  import opened Inventaires

  /** `Illisible`: the content cannot be read.  `LienCasse`: a dangling link, seen by Lstat and not by
      Stat.  `Inconstatable`: even its existence cannot be established. */
  datatype Noeud = Vide | Fichier(contenu: string, mode: nat) | Illisible | LienCasse | Inconstatable

  type Contenu = map<Chemin, Noeud>

  function En(d: Contenu, p: Chemin): Noeud {
    if p in d then d[p] else Vide
  }

  /** A write ends in a rename, which replaces whatever was there. */
  function Jouer1(d: Contenu, g: Geste): Contenu {
    match g
    case Ecrire(p, c, m) => d[p := Fichier(c, m)]
    case Retirer(p) => d[p := Vide]
    case Attendre(_) => d
  }

  function Jouer(d: Contenu, g: seq<Geste>): Contenu {
    if g == [] then d else Jouer1(Jouer(d, g[..|g| - 1]), g[|g| - 1])
  }

  lemma {:induction false} JouerConcat(d: Contenu, g: seq<Geste>, h: seq<Geste>)
    ensures Jouer(d, g + h) == Jouer(Jouer(d, g), h)
  {
    if h == [] {
      assert g + h == g;
    } else {
      JouerConcat(d, g, h[..|h| - 1]);
      assert (g + h)[..|g + h| - 1] == g + h[..|h| - 1];
    }
  }

  class Disque {
    var noeuds: Contenu

    constructor (d: Contenu)
      ensures noeuds == d
    {
      noeuds := d;
    }

    /** One funnel operation, noted in the inventory once the system has taken it. */
    method ExecuterUn(g: Geste, inv: Inventaire)
      requires inv.Valid()
      modifies this, inv
      ensures inv.Valid() && inv.journal == old(inv.journal) + [g]
      ensures noeuds == Jouer1(old(noeuds), g)
    {
      match g
      case Ecrire(p, c, m) =>
        noeuds := noeuds[p := Fichier(c, m)];
        inv.NoterEcriture(p, c, m);
      case Retirer(p) =>
        noeuds := noeuds[p := Vide];
        inv.NoterAbsence(p);
      case Attendre(a) =>
        inv.NoterAttente(a);
    }

    method Executer(gestes: seq<Geste>, inv: Inventaire)
      requires inv.Valid()
      modifies this, inv
      ensures inv.Valid() && inv.journal == old(inv.journal) + gestes
      ensures noeuds == Jouer(old(noeuds), gestes)
    {
      for i := 0 to |gestes|
        invariant inv.Valid() && inv.journal == old(inv.journal) + gestes[..i]
        invariant noeuds == Jouer(old(noeuds), gestes[..i])
      {
        assert gestes[..i + 1][..i] == gestes[..i] && gestes[..i + 1] == gestes[..i] + [gestes[i]];
        ExecuterUn(gestes[i], inv);
      }
      assert gestes[..|gestes|] == gestes;
    }
  }
}
