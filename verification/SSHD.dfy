/** The block of Vaultaire in sshd_config (`reecrireSSHD`, transformations.go:101-137; gabarits.go:94-111). */
module SSHD {
  import opened Texte
  import opened ConfTextes

  // --- the block ----------------------------------------------------------------------

  // Long literals in pieces, as in ConfTextes.
  const DEBUT := PREFIXE_MARQUEUR + " v1" + (" - debut du bloc " + "Vaultaire : " + "ne pas modifier a la main")
  const FIN := PREFIXE_MARQUEUR + " - fin du bloc Vaultaire"

  /** The settings the block holds, in order. */
  const TENUES: seq<(string, string)> := [
    ("UsePAM", "yes"),
    ("PubkeyAuthentication", "yes"),
    ("KbdInteractiveAuthentication", "yes"),
    ("ChallengeResponseAuthentication", "yes"),
    ("AuthenticationMethods", "publickey," + "keyboard-interactive"),
    ("AuthorizedKeysCommand", "/usr/bin/vaultaire_client" + " --fetch-key %u"),
    ("AuthorizedKeysCommandUser", "root")]

  const INCLUDE := "Include"
  const INCLUS := "/etc/ssh/sshd_config.d/*.conf"

  function LigneTenue(k: nat): string
    requires k < |TENUES|
  {
    TENUES[k].0 + " " + TENUES[k].1
  }

  /** `blocSSHD`, as lines */
  const BLOC: seq<string> := [DEBUT, LigneTenue(0), LigneTenue(1), LigneTenue(2), LigneTenue(3), LigneTenue(4),
                              LigneTenue(5), LigneTenue(6), INCLUDE + " " + INCLUS, FIN]

  /** `directivesSSHD` */
  const DIRECTIVES := ["UsePAM", "KbdInteractiveAuthentication", "ChallengeResponseAuthentication",
      "AuthenticationMethods",
                       "PubkeyAuthentication", "Include", "AuthorizedKeysCommand", "AuthorizedKeysCommandUser"]

  predicate Tenue(l: string) { exists d | 0 <= d < |DIRECTIVES| :: Commence(l, DIRECTIVES[d]) }

  /** A marker, or a line that starts with a held directive. */
  predicate Retiree(l: string) { EstMarqueur(l) || Tenue(l) }

  /** [[:space:]] */
  predicate Espace(c: char) { c in {'\t', '\n', '\U{000B}', '\U{000C}', '\r', ' '} }

  function SansEspace(s: string): (r: string)
    ensures |r| <= |s|
  {
    if s != "" && Espace(s[0]) then SansEspace(s[1..]) else s
  }

  /** `^[[:space:]]*(?i:match)[[:space:]]` */
  predicate LigneMatch(l: string) {
    var s := SansEspace(l);
    |s| > |"match"| && Minuscules(s[..|"match"|]) == "match" && Espace(s[|"match"|])
  }

  /** The lines of the administrator that survive, in order. */
  function Survivantes(contenu: string): seq<string> { Garder(Lignes(contenu), Retiree) }

  /** The place of the block: before the first Match, or at the end. */
  function Place(contenu: string): nat { Premier(Survivantes(contenu), LigneMatch) }

  function Reecrite(contenu: string): seq<string> {
    Survivantes(contenu)[..Place(contenu)] + BLOC + Survivantes(contenu)[Place(contenu)..]
  }

  method ReecrireSSHD(contenu: string) returns (r: string)
    ensures r == Joindre(Reecrite(contenu))
  {
    hide Retiree, LigneMatch;
    var ls := Lignes(contenu);
    var out: seq<string> := [];
    for i := 0 to |ls|
      invariant out == Garder(ls[..i], Retiree)
    {
      assert ls[..i + 1][..i] == ls[..i];
      var retiree := LigneRetiree(ls[i]);
      if !retiree { out := out + [ls[i]]; }
    }
    assert ls[..|ls|] == ls;
    for i := 0 to |out|
      invariant forall k | 0 <= k < i :: !LigneMatch(out[k])
    {
      if LigneMatch(out[i]) {
        assert i == Place(contenu);
        JoindreConcat(out[..i], BLOC);
        JoindreConcat(out[..i] + BLOC, out[i..]);
        return Joindre(out[..i]) + Joindre(BLOC) + Joindre(out[i..]);
      }
    }
    assert out[..|out|] == out && out[|out|..] == [];
    assert Place(contenu) == |out|;
    JoindreConcat(out, BLOC);
    assert out + BLOC + [] == out + BLOC;
    return Joindre(out) + Joindre(BLOC);
  }

  method LigneRetiree(l: string) returns (b: bool)
    ensures b == Retiree(l)
  {
    if EstMarqueur(l) { return true; }
    var tenue := false;
    for d := 0 to |DIRECTIVES|
      invariant tenue == exists k | 0 <= k < d :: Commence(l, DIRECTIVES[k])
    {
      if Commence(l, DIRECTIVES[d]) {
        tenue := true;
        break;
      }
    }
    return tenue;
  }

  // --- what it keeps ----------------------------------------------------------------

  lemma PasMatch(p: string, l: string)
    requires p != "" && Commence(l, p) && !Espace(p[0]) && Minuscule(p[0]) != 'm'
    ensures !LigneMatch(l)
  {
    Initiale(p, l);
    if |l| >= 5 {
      assert Minuscules(l[..|"match"|])[0] == Minuscule(l[0]);
      assert "match"[0] == 'm';
    }
  }

  lemma DirectiveTenue(d: nat, l: string)
    requires d < |DIRECTIVES| && Commence(l, DIRECTIVES[d])
    ensures Retiree(l)
  {
  }

  /** The directive that takes each line of the block away. */
  const RANG := [0, 4, 1, 2, 3, 6, 7, 5]

  lemma LigneTenueRetiree(k: nat)
    requires k < |TENUES|
    ensures TENUES[k].0 == DIRECTIVES[RANG[k]] && Retiree(LigneTenue(k)) && !LigneMatch(LigneTenue(k))
  {
    hide Retiree, LigneMatch;
    DirectiveTenue(RANG[k], LigneTenue(k));
    PasMatch(TENUES[k].0, LigneTenue(k));
  }

  lemma LigneTenueUneLigne(k: nat)
    requires k < |TENUES|
    ensures UneLigne(LigneTenue(k))
  {
    if k < 4 { DebutUneLigne(k); } else { FinUneLigne(k); }
  }

  lemma DebutUneLigne(k: nat)
    requires k < 4
    ensures UneLigne(TENUES[k].0) && UneLigne(TENUES[k].1)
  {
  }

  lemma FinUneLigne(k: nat)
    requires 4 <= k < |TENUES|
    ensures UneLigne(TENUES[k].0) && UneLigne(TENUES[k].1)
  {
  }

  lemma BlocTenuRetire(k: nat)
    requires 1 <= k <= 7
    ensures Retiree(BLOC[k]) && !LigneMatch(BLOC[k]) && UneLigne(BLOC[k])
  {
    hide Retiree, LigneMatch, LigneTenue, UneLigne;
    assert BLOC[k] == LigneTenue(k - 1);
    LigneTenueRetiree(k - 1);
    LigneTenueUneLigne(k - 1);
  }

  lemma BlocInclusRetire()
    ensures Retiree(BLOC[8]) && !LigneMatch(BLOC[8]) && UneLigne(BLOC[8])
  {
    hide Retiree, LigneMatch;
    DirectiveTenue(5, BLOC[8]);
    PasMatch(INCLUDE, BLOC[8]);
  }

  lemma BlocMarqueRetire(k: nat)
    requires k in {0, 9}
    ensures Retiree(BLOC[k]) && !LigneMatch(BLOC[k]) && UneLigne(BLOC[k])
  {
    hide Retiree, LigneMatch;
    MarqueurRetire(BLOC[k]);
    PasMatch(PREFIXE_MARQUEUR, BLOC[k]);
  }

  lemma BlocRetire(k: nat)
    requires k < |BLOC|
    ensures Retiree(BLOC[k]) && !LigneMatch(BLOC[k]) && UneLigne(BLOC[k])
  {
    hide Retiree, LigneMatch, UneLigne, LigneTenue;
    if k == 8 { BlocInclusRetire(); } else if 1 <= k <= 7 { BlocTenuRetire(k); } else { BlocMarqueRetire(k); }
  }

  lemma MarqueurRetire(l: string)
    requires EstMarqueur(l)
    ensures Retiree(l)
  {
  }
}
