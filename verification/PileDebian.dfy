/** Branching Vaultaire into a PAM stack of Debian (`brancherPileDebian`, transformations.go:48-99). */
module PileDebian {
  import opened ConfTextes

  predicate Tabulation(c: char) { c == ' ' || c == '\t' }

  /** The run of spaces and tabs that opens `s`. */
  function SansTab(s: string): (r: string)
    ensures |r| <= |s| && r == s[|s| - |r|..]
    ensures forall i | 0 <= i < |s| - |r| :: Tabulation(s[i])
    ensures r != "" ==> !Tabulation(r[0])
  {
    if s != "" && Tabulation(s[0]) then SansTab(s[1..]) else s
  }

  const SUFFIXE := "  # vaultaire"

  /** `# vaultaire[ \t]*$` */
  predicate LigneVaultaire(l: string) {
    exists i | 0 <= i <= |l| :: SousMot(l, i, "# vaultaire") && forall k | i + |"# vaultaire"| <= k < |l| ::
        Tabulation(l[k])
  }

  /** `^[ \t]*@include[ \t]+<pile>([ \t]|$)` */
  predicate Inclut(l: string, pile: string) {
    var s := SansTab(l);
    && Commence(s, "@include")
    && var r := SansTab(s[|"@include"|..]);
       && |r| < |s| - |"@include"| && Commence(r, pile)
       && (|r| == |pile| || Tabulation(r[|pile|]))
  }

  /** Written by Vaultaire: taken out before writing. */
  predicate DeVaultaire(l: string) { LigneVaultaire(l) || EstMarqueur(l) }

  /** The lines of the administrator. */
  function Autres(l: seq<string>): seq<string> { Garder(l, DeVaultaire) }

  predicate CommonAuth(l: string) { Inclut(l, "common-auth") }
  predicate CommonSession(l: string) { Inclut(l, "common-session") }

  /** The two lines to put in, and the places found for them. */
  datatype Branchement = Branchement(auth: string, session: string, avant: nat, apres: nat)

  /** Line `k`: the auth line just before line `avant`, the session line just after line `apres`. */
  function Apport(l: string, b: Branchement, k: nat): seq<string> {
    (if k == b.avant then [b.auth + SUFFIXE] else [])
    + [l]
    + (if b.session != "" && k == b.apres then [b.session + SUFFIXE] else [])
  }

  /** The first `n` lines, with what is put in. */
  function Corps(l: seq<string>, b: Branchement, n: nat): seq<string>
    requires n <= |l|
  {
    if n == 0 then [] else Corps(l, b, n - 1) + Apport(l[n - 1], b, n - 1)
  }

  /** The first line opens the file, and is no line of Vaultaire. */
  predicate Entete(ls: seq<string>) { ls != [] && !DeVaultaire(ls[0]) && Commence(ls[0], "#%PAM") }

  function Tete(ls: seq<string>): seq<string> {
    if Entete(ls) then [ls[0], MARQUE_PAM] else [MARQUE_PAM]
  }

  /** The lines of the administrator, the opening line apart. */
  function Reste(ls: seq<string>): seq<string> {
    if Entete(ls) && Autres(ls) != [] then Autres(ls)[1..] else Autres(ls)
  }

  function Places(ls: seq<string>, auth: string, session: string): Branchement {
    Branchement(auth, session, Premier(Reste(ls), CommonAuth), Premier(Reste(ls), CommonSession))
  }

  /** The whole new stack, as lines. */
  function Branchee(ls: seq<string>, auth: string, session: string): seq<string> {
    var b := Places(ls, auth, session);
    Tete(ls) + Corps(Reste(ls), b, |Reste(ls)|)
    + (if session != "" && b.apres == |Reste(ls)| then [session + SUFFIXE] else [])
  }

  predicate Branchable(ls: seq<string>) { Premier(Reste(ls), CommonAuth) < |Reste(ls)| }

  /** The new stack as a text, or the refusal of a stack without common-auth. */
  function PileVoulue(contenu: string, auth: string, session: string): Resultat<string> {
    if Branchable(Lignes(contenu)) then Ok(Joindre(Branchee(Lignes(contenu), auth, session))) else PileNonBranchable
  }

  lemma AutresPrefixe(ls: seq<string>, i: nat)
    requires i < |ls|
    ensures Autres(ls[..i + 1]) == Autres(ls[..i]) + (if DeVaultaire(ls[i]) then [] else [ls[i]])
    ensures Autres(ls[..i + 1]) <= Autres(ls)
  {
    assert ls[..i + 1][..i] == ls[..i];
    GarderConcat(ls[..i + 1], ls[i + 1..], DeVaultaire);
    assert ls == ls[..i + 1] + ls[i + 1..];
  }

  /** What the loop appends for one line of the body. */
  method AjouterLigne(out: seq<string>, l: string, auth: string, session: string, a: bool, s: bool,
      ghost b: Branchement, ghost k: nat)
    returns (out': seq<string>, a': bool, s': bool)
    requires b.auth == auth && b.session == session
    requires CommonAuth(l) && !a <==> k == b.avant
    requires session != "" ==> (CommonSession(l) && !s <==> k == b.apres)
    ensures out' == out + Apport(l, b, k)
    ensures a' <==> a || k == b.avant
    ensures s' <==> s || (session != "" && k == b.apres)
  {
    hide Inclut;
    out', a', s' := out, a, s;
    if !a && CommonAuth(l) { out', a' := out' + [auth + SUFFIXE], true; }
    out' := out' + [l];
    if session != "" && !s && CommonSession(l) { out', s' := out' + [session + SUFFIXE], true; }
  }

  /** The loop is at line `i` of `ls`, and has put `n` lines of the body. */
  ghost predicate EnCours(ls: seq<string>, i: nat, b: Branchement, out: seq<string>, n: nat, marque: bool, a: bool,
      s: bool) {
    && i <= |ls| && n <= |Reste(ls)|
    && (marque <==> Autres(ls[..i]) != [])
    && n == (if marque then |Autres(ls[..i])| - (if Entete(ls) then 1 else 0) else 0)
    && (i > 0 && Entete(ls) ==> marque)
    && out == (if marque then Tete(ls) else []) + Corps(Reste(ls), b, n)
    && (a <==> b.avant < n)
    && (s <==> b.session != "" && b.apres < n)
  }

  method BrancherPileDebian(contenu: string, auth: string, session: string) returns (r: Resultat<string>)
    ensures r == PileVoulue(contenu, auth, session)
  {
    hide DeVaultaire, Inclut, Apport, Joindre, Lignes, Reste, EnCours, Branchee;
    var ls := Lignes(contenu);
    ghost var b := Places(ls, auth, session);
    ghost var n: nat := 0;
    var out: seq<string> := [];
    var marque, a, s := false, false, false;
    Debut(ls, b);
    for i := 0 to |ls|
      invariant EnCours(ls, i, b, out, n, marque, a, s)
    {
      var l := ls[i];
      if DeVaultaire(l) {
        LignePassee(ls, i, b, out, n, marque, a, s);
        continue;
      }
      if i == 0 && Commence(l, "#%PAM") {
        TetePosee(ls, b, out, n, marque, a, s);
        out, marque := out + [l, MARQUE_PAM], true;
        continue;
      }
      LigneAVenir(ls, i, b, out, n, marque, a, s);
      ghost var avant, tete, av, sv := out, if marque then [] else [MARQUE_PAM], a, s;
      ghost var marquee := marque;
      if !marque { out, marque := out + [MARQUE_PAM], true; }
      assert out == avant + tete;
      out, a, s := AjouterLigne(out, l, auth, session, a, s, b, n);
      LignePosee(ls, i, b, avant, out, n, marquee, av, a, sv, s);
      n := n + 1;
    }
    FinDePile(ls, auth, session, out, n, marque, a, s);
    if !a { return PileNonBranchable; }
    if session != "" && !s { out := out + [session + SUFFIXE]; }
    return Ok(Joindre(out));
  }

  lemma Debut(ls: seq<string>, b: Branchement)
    ensures EnCours(ls, 0, b, [], 0, false, false, false)
  {
  }

  lemma LignePassee(ls: seq<string>, i: nat, b: Branchement, out: seq<string>, n: nat, marque: bool, a: bool, s: bool)
    requires EnCours(ls, i, b, out, n, marque, a, s) && i < |ls| && DeVaultaire(ls[i])
    ensures EnCours(ls, i + 1, b, out, n, marque, a, s)
  {
    hide LigneVaultaire, EstMarqueur, Garder, Corps, Reste;
    AutresPrefixe(ls, i);
  }

  lemma TetePosee(ls: seq<string>, b: Branchement, out: seq<string>, n: nat, marque: bool, a: bool, s: bool)
    requires EnCours(ls, 0, b, out, n, marque, a, s) && Entete(ls)
    ensures EnCours(ls, 1, b, out + [ls[0], MARQUE_PAM], n, true, a, s)
  {
    hide LigneVaultaire, EstMarqueur, Reste;
    AutresPrefixe(ls, 0);
  }

  lemma LigneAVenir(ls: seq<string>, i: nat, b: Branchement, out: seq<string>, n: nat, marque: bool, a: bool, s: bool)
    requires EnCours(ls, i, b, out, n, marque, a, s) && b == Places(ls, b.auth, b.session)
    requires i < |ls| && !DeVaultaire(ls[i]) && !(i == 0 && Entete(ls))
    ensures n < |Reste(ls)| && Reste(ls)[n] == ls[i]
    ensures CommonAuth(ls[i]) && !a <==> n == b.avant
    ensures b.session != "" ==> (CommonSession(ls[i]) && !s <==> n == b.apres)
    ensures marque || (n == 0 && !Entete(ls))
  {
    hide DeVaultaire, Inclut, Garder, Corps;
    LigneDuReste(ls, i);
    Place(Reste(ls), CommonAuth, n, a);
    Place(Reste(ls), CommonSession, n, b.apres < n);
  }

  lemma LignePosee(ls: seq<string>, i: nat, b: Branchement, avant: seq<string>, out: seq<string>, n: nat, marque: bool,
                   a: bool, a': bool, s: bool, s': bool)
    requires EnCours(ls, i, b, avant, n, marque, a, s) && i < |ls| && !DeVaultaire(ls[i])
    requires n < |Reste(ls)| && Reste(ls)[n] == ls[i] && (marque || (n == 0 && !Entete(ls)))
    requires out == avant + (if marque then [] else [MARQUE_PAM]) + Apport(ls[i], b, n)
    requires (a' <==> a || n == b.avant) && (s' <==> s || (b.session != "" && n == b.apres))
    ensures EnCours(ls, i + 1, b, out, n + 1, true, a', s')
  {
    hide DeVaultaire, Garder, Apport, Reste;
    AutresPrefixe(ls, i);
    LigneAjoutee(ls, b, n, avant, out, !marque);
  }

  lemma LigneAjoutee(ls: seq<string>, b: Branchement, n: nat, avant: seq<string>, out: seq<string>, sansMarque: bool)
    requires n < |Reste(ls)| && (sansMarque ==> !Entete(ls) && n == 0)
    requires avant == (if sansMarque then [] else Tete(ls)) + Corps(Reste(ls), b, n)
    requires out == avant + (if sansMarque then [MARQUE_PAM] else []) + Apport(Reste(ls)[n], b, n)
    ensures out == Tete(ls) + Corps(Reste(ls), b, n + 1)
  {
    hide Apport, Entete, Reste;
  }

  lemma FinDePile(ls: seq<string>, auth: string, session: string, out: seq<string>, n: nat, marque: bool, a: bool,
      s: bool)
    requires EnCours(ls, |ls|, Places(ls, auth, session), out, n, marque, a, s)
    ensures a <==> Branchable(ls)
    ensures a ==> Branchee(ls, auth, session) == if session != "" && !s then out + [session + SUFFIXE] else out
  {
    hide DeVaultaire, Inclut;
    assert ls[..|ls|] == ls;
    assert n == |Reste(ls)|;
  }

  lemma Place(l: seq<string>, p: string -> bool, n: nat, fait: bool)
    requires n < |l| && (fait <==> Premier(l, p) < n)
    ensures p(l[n]) && !fait <==> n == Premier(l, p)
  {
  }

  lemma LigneDuReste(ls: seq<string>, i: nat)
    requires i < |ls| && !DeVaultaire(ls[i]) && !(i == 0 && Entete(ls))
    ensures var n := |Autres(ls[..i])| - (if Entete(ls) then 1 else 0); 0 <= n < |Reste(ls)| && Reste(ls)[n] == ls[i]
    ensures Entete(ls) ==> Autres(ls[..i]) != []
  {
    AutresPrefixe(ls, i);
    AutresPrefixe(ls, 0);
    if Entete(ls) { AutresPrefixe(ls[..i], 0); assert ls[..i][..1] == ls[..1]; }
  }
}
