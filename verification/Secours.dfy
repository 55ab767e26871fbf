/** The emergency door of a PAM stack: a local account must still reach the authentication of the
    distribution (secours.go). */
module Secours {
  import opened Texte
  import opened ConfTextes

  const MODULES := ["pam_login_custom_module.so", "pam_ssh_auth_module.so"]
  const PILES_LOCALES := ["system-auth", "password-auth", "common-auth"]

  datatype Verdict = Ouverte | SansModule | SansIgnore | Coupee(j: nat) | SansPile

  predicate EstAuth(t: string) { t == "auth" || t == "-auth" }

  /** `controle`: the whole bracketed control of a PAM line, or its second word. */
  function Controle(l: string): string {
    var t := TrimSpace(l);
    var champs := Champs(t);
    if |champs| < 2 then ""
    else if Commence(champs[1], "[") && Indice(t, ']') > Indice(t, '[') >= 0
    then t[Indice(t, '[')..Indice(t, ']') + 1]
    else champs[1]
  }

  predicate NommeUnModule(l: string) { Contient(l, MODULES[0]) || Contient(l, MODULES[1]) }

  /** An auth line that loads a module of Vaultaire. */
  predicate ChargeVaultaire(l: string) {
    |Champs(l)| >= 2 && EstAuth(Champs(l)[0]) && NommeUnModule(l)
  }

  predicate Commentaire(l: string) { TrimSpace(l) == "" || Commence(TrimSpace(l), "#") }

  /** The authentication of the distribution. */
  predicate Distribution(l: string) {
    var c := Champs(TrimSpace(l));
    && !Commentaire(l)
    && (|| (|c| > 1 && c[0] == "@include" && c[1] == "common-auth")
        || (|c| >= 3 && EstAuth(c[0]) && c[1] in {"substack", "include"} && c[2] in PILES_LOCALES))
  }

  /** A line that ends the way of a local account. */
  predicate Coupe(l: string) {
    var c := Champs(TrimSpace(l));
    && !Commentaire(l) && !Distribution(l)
    && c != [] && EstAuth(c[0])
    && (Controle(TrimSpace(l)) == "requisite" || Contient(Controle(TrimSpace(l)), "=die"))
  }

  /** What counts as the authentication of the distribution, read in the words of the line. */
  lemma DistributionDite(l: string)
    ensures var c := Champs(l);
            Distribution(l) <==>
              || (|c| > 1 && c[0] == "@include" && c[1] == "common-auth")
              || (|c| >= 3 && c[0] in {"auth", "-auth"} && c[1] in {"substack", "include"}
                  && c[2] in {"system-auth", "password-auth", "common-auth"})
  {
    hide Champs, TrimSpace;
    ChampsTrim(l);
    var t := TrimSpace(l);
    if Champs(t) != [] {
      ChampsVide(t);
      TrimSansBlanc(l);
      ChampsInitiale(t);
    }
    assert "@include"[0] == '@' && "auth"[0] == 'a' && "-auth"[0] == '-' && "#"[0] == '#';
  }

  lemma TrimSansBlanc(l: string)
    ensures TrimSpace(l) != "" ==> !EstBlanc(TrimSpace(l)[0])
  {
  }

  /** What counts as a line of Vaultaire. */
  lemma ModuleDit(l: string)
    ensures ChargeVaultaire(l) <==>
              && |Champs(l)| >= 2 && Champs(l)[0] in {"auth", "-auth"}
              && (Contient(l, "pam_login_custom_module.so") || Contient(l, "pam_ssh_auth_module.so"))
  {
    hide Champs, Contient;
  }

  /** The line `d` is the first that loads a module of Vaultaire. */
  ghost predicate PremierModule(ls: seq<string>, d: nat) {
    d < |ls| && ChargeVaultaire(ls[d]) && forall k | 0 <= k < d :: !ChargeVaultaire(ls[k])
  }

  /** From line `d`, a local account reaches the distribution at line `j`, no line cutting its way. */
  ghost predicate Atteint(ls: seq<string>, d: nat, j: nat) {
    d < j < |ls| && Distribution(ls[j]) && forall k | d < k < j :: !Coupe(ls[k])
  }

  /** The requirement itself. */
  ghost predicate PorteOuverte(ls: seq<string>) {
    exists d: nat, j: nat :: PremierModule(ls, d) && Contient(Controle(ls[d]), "ignore=ignore") && Atteint(ls, d, j)
  }

  /** The module is there and says ignore=ignore, and nothing decides between it and line `j`. */
  ghost predicate Indecis(ls: seq<string>, d: nat, j: nat) {
    && PremierModule(ls, d) && Contient(Controle(ls[d]), "ignore=ignore")
    && d < j <= |ls| && forall k | d < k < j :: !Coupe(ls[k]) && !Distribution(ls[k])
  }

  lemma NonCommentaire(l: string)
    ensures !Commentaire(l) ==> Champs(TrimSpace(l)) != []
  {
    ChampsTrim(l);
    ChampsVide(l);
    TrimToutBlanc(l);
  }

  /** The first scan of the function. */
  method TrouverModule(ls: seq<string>) returns (debut: int)
    ensures debut >= 0 ==> PremierModule(ls, debut)
    ensures debut < 0 ==> forall k | 0 <= k < |ls| :: !ChargeVaultaire(ls[k])
  {
    debut := -1;
    for i := 0 to |ls|
      invariant debut == -1 && forall k | 0 <= k < i :: !ChargeVaultaire(ls[k])
    {
      var champs := Champs(ls[i]);
      if |champs| < 2 || !EstAuth(champs[0]) { continue; }
      for m := 0 to |MODULES|
        invariant debut in {-1, i}
        invariant debut == i <==> exists k | 0 <= k < m :: Contient(ls[i], MODULES[k])
      {
        if Contient(ls[i], MODULES[m]) { debut := i; }
      }
      if debut >= 0 { return; }
      assert !Contient(ls[i], MODULES[0]) && !Contient(ls[i], MODULES[1]);
    }
  }

  /** What the second scan makes of one line. */
  method LireLigne(l: string) returns (distribution: bool, coupe: bool)
    ensures distribution == Distribution(l) && coupe == Coupe(l) && !(distribution && coupe)
  {
    distribution, coupe := false, false;
    var t := TrimSpace(l);
    if t == "" || Commence(t, "#") { return; }
    NonCommentaire(l);
    var champs := Champs(t);
    if champs[0] == "@include" && |champs| > 1 && champs[1] == "common-auth" { return true, false; }
    if !EstAuth(champs[0]) { return; }
    for p := 0 to |PILES_LOCALES|
      invariant forall q | 0 <= q < p ::
                  !(|champs| >= 3 && champs[1] in {"substack", "include"} && champs[2] == PILES_LOCALES[q])
    {
      if |champs| >= 3 && (champs[1] == "substack" || champs[1] == "include") && champs[2] == PILES_LOCALES[p] {
        return true, false;
      }
    }
    var c := Controle(t);
    coupe := c == "requisite" || Contient(c, "=die");
  }

  /** `VerifierPorteDeSecours` accepts exactly the stacks that keep the door open; and a refusal names the
      condition that fails, in order. */
  method VerifierPorteDeSecours(pile: string) returns (v: Verdict)
    ensures v == Ouverte <==> PorteOuverte(Lignes(pile))
    ensures v == SansModule <==> forall k | 0 <= k < |Lignes(pile)| :: !ChargeVaultaire(Lignes(pile)[k])
    ensures v == SansIgnore <==> exists d: nat ::
        PremierModule(Lignes(pile), d) && !Contient(Controle(Lignes(pile)[d]), "ignore=ignore")
    ensures forall j: nat :: v == Coupee(j) <==>
              j < |Lignes(pile)| && Coupe(Lignes(pile)[j]) && exists d: nat :: Indecis(Lignes(pile), d, j)
    ensures v == SansPile <==> exists d: nat :: Indecis(Lignes(pile), d, |Lignes(pile)|)
  {
    hide Coupe, Distribution, ChargeVaultaire, Controle, Contient, Lignes;
    var ls := Lignes(pile);
    var debut := TrouverModule(ls);
    if debut < 0 { return SansModule; }
    if !Contient(Controle(ls[debut]), "ignore=ignore") { return SansIgnore; }
    for j := debut + 1 to |ls|
      invariant Indecis(ls, debut, j)
    {
      var distribution, coupe := LireLigne(ls[j]);
      if distribution {
        Decide(ls, debut, j);
        assert Atteint(ls, debut, j);
        return Ouverte;
      }
      if coupe {
        Decide(ls, debut, j);
        PorteFermee(ls, debut, j);
        return Coupee(j);
      }
    }
    Decide(ls, debut, |ls|);
    PorteFermee(ls, debut, |ls|);
    return SansPile;
  }

  /** A line that decides, or the end, is met at one place only. */
  lemma Decide(ls: seq<string>, d: nat, j: nat)
    requires Indecis(ls, d, j) && (j < |ls| ==> Coupe(ls[j]) || Distribution(ls[j]))
    ensures forall e: nat, i: nat | Indecis(ls, e, i) :: e == d && i <= j
    ensures forall e: nat, i: nat | Indecis(ls, e, i) && (i == |ls| || Coupe(ls[i])) :: i == j
  {
    hide Coupe, Distribution, ChargeVaultaire, Controle, Contient;
    forall e: nat, i: nat | Indecis(ls, e, i) ensures e == d && i <= j && (i == |ls| || Coupe(ls[i]) ==> i == j) {
      assert PremierModule(ls, d) && PremierModule(ls, e);
    }
  }

  lemma PorteFermee(ls: seq<string>, d: nat, j: nat)
    requires PremierModule(ls, d) && d < j <= |ls| && (j < |ls| ==> Coupe(ls[j]))
    requires forall k | d < k < |ls| && k <= j :: !Distribution(ls[k])
    ensures !PorteOuverte(ls)
  {
    hide ChargeVaultaire, Coupe, Distribution;
    forall e: nat, i: nat | PremierModule(ls, e) ensures e == d && !Atteint(ls, e, i)
    {
      assert e == d;
      assert d < i < |ls| && Distribution(ls[i]) ==> i > j;
    }
  }

  // --- lines known in part ---------------------------------------------------------

  /** An auth line whose control is in brackets. */
  ghost predicate LigneEntreCrochets(l: string, blancs: string, controle: string, suite: string) {
    && l == "auth" + blancs + "[" + controle + "]" + suite
    && blancs != "" && ToutBlanc(blancs)
    && '[' !in controle && ']' !in controle && !EstBlanc(l[|l| - 1])
  }

  lemma ChampsEntreCrochets(l: string, blancs: string, controle: string, suite: string)
    requires LigneEntreCrochets(l, blancs, controle, suite)
    ensures |Champs(l)| >= 2 && Champs(l)[0] == "auth" && Commence(Champs(l)[1], "[")
  {
    hide Champs, TrimSpace;
    var reste := "[" + controle + "]" + suite;
    assert l == "" + "auth" + (blancs + reste);
    ChampsMot("", "auth", blancs + reste);
    ChampsDecale(blancs, reste);
    ChampsInitiale(reste);
  }

  lemma ChampsDecale(b: string, s: string)
    requires ToutBlanc(b)
    ensures Champs(b + s) == Champs(s)
  {
    TrimGaucheBlancs(b, s);
  }

  lemma IndicesCrochets(l: string, blancs: string, controle: string, suite: string)
    requires LigneEntreCrochets(l, blancs, controle, suite)
    ensures Indice(l, '[') == 4 + |blancs| && Indice(l, ']') == 5 + |blancs| + |controle|
    ensures l[4 + |blancs|..6 + |blancs| + |controle|] == "[" + controle + "]"
  {
    hide EstBlanc, Indice;
    var a, c := "auth" + blancs, "[" + controle;
    assert l == a + c + ("]" + suite);
    assert '[' !in a && ']' !in a by { BlancsSansCrochet(blancs); }
    assert l == a + "[" + (controle + "]" + suite);
    IndiceApres(a, '[', controle + "]" + suite);
    IndiceApres(a + c, ']', suite);
    assert l == a + c + "]" + suite;
  }

  lemma BlancsSansCrochet(b: string)
    requires ToutBlanc(b)
    ensures '[' !in b && ']' !in b
  {
  }

  lemma IndiceApres(a: string, c: char, b: string)
    requires c !in a
    ensures Indice(a + [c] + b, c) == |a|
  {
    var s := a + [c] + b;
    assert s[|a|] == c && forall k | 0 <= k < |a| :: s[k] == a[k];
  }

  lemma ControleEntreCrochets(l: string, blancs: string, controle: string, suite: string)
    requires LigneEntreCrochets(l, blancs, controle, suite)
    ensures |Champs(l)| >= 2 && Champs(l)[0] == "auth" && Controle(l) == "[" + controle + "]"
  {
    hide Champs, TrimSpace, Indice, EstBlanc;
    ChampsEntreCrochets(l, blancs, controle, suite);
    IndicesCrochets(l, blancs, controle, suite);
    AuthNette(l);
    TrimNette(l);
  }

  lemma AuthNette(l: string)
    requires "auth" <= l && !EstBlanc(l[|l| - 1])
    ensures Nette(l)
  {
    assert l[0] == "auth"[0];
  }

  /** A line that starts neither with a blank, nor with the letter of `auth`, nor with a dash, is none. */
  lemma PasAuth(l: string)
    requires l != "" && !EstBlanc(l[0]) && l[0] !in {'a', '-'}
    ensures !ChargeVaultaire(l)
  {
    ChampsInitiale(l);
  }
}
