/** Reading a block back (`extraireBloc`, verifiers_bloc.go:84-108): the verifier accepts what the applier wrote. */
module BlocsExtraits {
  import opened Options
  import opened Texte
  import opened ConfTextes
  import opened Blocs

  /** From outside: up to the first opening line. */
  function Extraire(l: seq<string>, debut: string, fin: string): Option<string> {
    if l == [] then None
    else if TrimSpace(l[0]) == debut then Fermer(l[1..], fin, [])
    else Extraire(l[1..], debut, fin)
  }

  /** From inside: up to the closing line; a block never closed is absent. */
  function Fermer(l: seq<string>, fin: string, vues: seq<string>): Option<string> {
    if l == [] then None
    else if TrimSpace(l[0]) == fin then Some(Join(vues))
    else Fermer(l[1..], fin, vues + [l[0]])
  }

  method ExtraireBloc(contenu: string, debut: string, fin: string) returns (corps: string, present: bool)
    ensures Extraire(Split(contenu), debut, fin) == if present then Some(corps) else None
    ensures !present ==> corps == ""
  {
    hide TrimSpace, Split;
    var l := Split(contenu);
    var lignes: seq<string> := [];
    var dedans := false;
    for i := 0 to |l|
      invariant Extraire(l, debut, fin) == if dedans then Fermer(l[i..], fin, lignes) else Extraire(l[i..], debut, fin)
    {
      var nette := TrimSpace(l[i]);
      assert l[i..][0] == l[i] && l[i..][1..] == l[i + 1..];
      if !dedans && nette == debut {
        dedans, lignes := true, [];
      } else if dedans && nette == fin {
        return Join(lignes), true;
      } else if dedans {
        lignes := lignes + [l[i]];
      }
    }
    return "", false;
  }

  /** What is read back, exactly: the lines between the first opening line and the closing line that follows it, if
      there is one. */
  lemma {:induction false} ExtraitExact(l: seq<string>, debut: string, fin: string, i: nat)
    requires i < |l| && TrimSpace(l[i]) == debut && forall k | 0 <= k < i :: TrimSpace(l[k]) != debut
    ensures Extraire(l, debut, fin) == None <==> forall j | i < j < |l| :: TrimSpace(l[j]) != fin
    ensures forall j | i < j < |l| && TrimSpace(l[j]) == fin && forall k | i < k < j :: TrimSpace(l[k]) != fin ::
              Extraire(l, debut, fin) == Some(Join(l[i + 1..j]))
  {
    hide TrimSpace, Join;
    if i > 0 {
      ExtraitExact(l[1..], debut, fin, i - 1);
      forall j | i < j < |l| ensures l[1..][j - 1] == l[j] && l[1..][i..j - 1] == l[i + 1..j] {}
      assert forall k | 0 <= k < |l| - 1 :: l[1..][k] == l[k + 1];
    } else {
      FermeExact(l[1..], fin, []);
      assert forall k | 0 <= k < |l| - 1 :: l[1..][k] == l[k + 1];
      forall j | 0 < j < |l| ensures [] + l[1..][..j - 1] == l[1..j] {}
    }
  }

  lemma {:induction false} FermeExact(l: seq<string>, fin: string, vues: seq<string>)
    ensures Fermer(l, fin, vues) == None <==> forall j | 0 <= j < |l| :: TrimSpace(l[j]) != fin
    ensures forall j | 0 <= j < |l| && TrimSpace(l[j]) == fin && forall k | 0 <= k < j :: TrimSpace(l[k]) != fin ::
              Fermer(l, fin, vues) == Some(Join(vues + l[..j]))
  {
    hide TrimSpace, Join;
    if l != [] && TrimSpace(l[0]) != fin {
      FermeExact(l[1..], fin, vues + [l[0]]);
      assert forall k | 0 <= k < |l| - 1 :: l[1..][k] == l[k + 1];
      forall j | 0 < j < |l| ensures vues + [l[0]] + l[1..][..j - 1] == vues + l[..j] {}
    } else {
      assert vues + l[..0] == vues;
    }
  }

  // --- lines of a text --------------------------------------------------------------------

  function DernierePlus(l: seq<string>, m: string): seq<string>
    requires l != []
  {
    l[..|l| - 1] + [l[|l| - 1] + m]
  }

  lemma {:induction false} JoinDernierePlus(l: seq<string>, m: string)
    requires l != []
    ensures Join(DernierePlus(l, m)) == Join(l) + m
  {
    if |l| > 1 {
      JoinDernierePlus(l[1..], m);
      assert DernierePlus(l, m)[1..] == DernierePlus(l[1..], m) && DernierePlus(l, m)[0] == l[0];
      assert l[0] + "\n" + (Join(l[1..]) + m) == l[0] + "\n" + Join(l[1..]) + m;
    }
  }

  /** A mark put at the end of a text lengthens its last line. */
  lemma SplitColle(a: string, m: string)
    requires UneLigne(m)
    ensures Split(a + m) == DernierePlus(Split(a), m)
  {
    hide Split, Join;
    var l := Split(a);
    JoinSplit(a);
    JoinDernierePlus(l, m);
    SplitJoin(DernierePlus(l, m));
  }

  /** What a line holds, the text holds. */
  lemma {:induction false} LigneContient(s: string, p: string, i: nat)
    requires i < |Split(s)| && Contient(Split(s)[i], p) && UneLigne(p) && p != ""
    ensures Contient(s, p)
  {
    JoinSplit(s);
    JoinContient(Split(s), p, i);
  }

  lemma {:induction false} JoinContient(l: seq<string>, p: string, i: nat)
    requires i < |l| && Contient(l[i], p) && UneLigne(p) && p != ""
    ensures Contient(Join(l), p)
  {
    if |l| > 1 {
      var b := Join(l[1..]);
      if i == 0 {
        var k :| 0 <= k <= |l[0]| && SousMot(l[0], k, p);
        SousMotCoupe(l[0], b, p, k);
      } else {
        JoinContient(l[1..], p, i - 1);
        var k :| 0 <= k <= |b| && SousMot(b, k, p);
        SousMotCoupe(l[0], b, p, k + |l[0]| + 1);
      }
    }
  }

  lemma TrimContient(l: string)
    ensures Contient(l, TrimSpace(l))
  {
    TrimGaucheFin(l);
    var g := TrimGauche(l);
    var k := |l| - |g|;
    var t := TrimSpace(l);
    assert l[k..k + |t|] == g[..|t|] == t;
    assert SousMot(l, k, t);
  }

  lemma {:induction false} TrimGaucheFin(l: string)
    ensures TrimGauche(l) == l[|l| - |TrimGauche(l)|..]
  {
    if l != "" && EstBlanc(l[0]) { TrimGaucheFin(l[1..]); }
  }

  // --- reading back --------------------------------------------------------------------------

  lemma {:induction false} ExtraireApres(avant: seq<string>, suite: seq<string>, debut: string, fin: string)
    requires forall i | 0 <= i < |avant| :: TrimSpace(avant[i]) != debut
    ensures Extraire(avant + suite, debut, fin) == Extraire(suite, debut, fin)
  {
    hide TrimSpace;
    if avant == [] {
      assert avant + suite == suite;
    } else {
      assert (avant + suite)[0] == avant[0] && (avant + suite)[1..] == avant[1..] + suite;
      ExtraireApres(avant[1..], suite, debut, fin);
    }
  }

  lemma {:induction false} FermerApres(corps: seq<string>, suite: seq<string>, fin: string, vues: seq<string>)
    requires forall i | 0 <= i < |corps| :: TrimSpace(corps[i]) != fin
    requires suite != [] && TrimSpace(suite[0]) == fin
    ensures Fermer(corps + suite, fin, vues) == Some(Join(vues + corps))
  {
    hide TrimSpace, Join;
    if corps == [] {
      assert corps + suite == suite && vues + corps == vues;
    } else {
      assert (corps + suite)[0] == corps[0] && (corps + suite)[1..] == corps[1..] + suite;
      FermerApres(corps[1..], suite, fin, vues + [corps[0]]);
      assert vues + [corps[0]] + corps[1..] == vues + corps;
    }
  }

  /** Lines before, an opening line, a body without closing line, a closing line. */
  lemma ExtraireBlocPose(avant: seq<string>, o: string, corps: seq<string>, suite: seq<string>, debut: string,
      fin: string)
    requires forall i | 0 <= i < |avant| :: TrimSpace(avant[i]) != debut
    requires TrimSpace(o) == debut && forall i | 0 <= i < |corps| :: TrimSpace(corps[i]) != fin
    requires suite != [] && TrimSpace(suite[0]) == fin
    ensures Extraire(avant + [o] + corps + suite, debut, fin) == Some(Join(corps))
  {
    hide TrimSpace, Join;
    var l := [o] + (corps + suite);
    assert avant + [o] + corps + suite == avant + l;
    ExtraireApres(avant, l, debut, fin);
    assert l[0] == o && l[1..] == corps + suite;
    FermerApres(corps, suite, fin, []);
    assert [] + corps == corps;
  }

  /** The mark opens its line. */
  ghost predicate SeuleSurSaLigne(existant: string) {
    var l := Split(Avant(existant)); ToutBlanc(l[|l| - 1])
  }

  /** No line of the body is the closing mark. */
  ghost predicate CorpsSansFin(contenu: string) {
    var l := Split(SansFins(contenu)); forall i | 0 <= i < |l| :: TrimSpace(l[i]) != FIN
  }

  /** What the applier has just written is what the verifier reads: the whole body, to the byte. */
  lemma VerifierAccepte(existant: string, contenu: string)
    requires SeuleSurSaLigne(existant) && CorpsSansFin(contenu)
    ensures Extraire(Split(RemplacerBloc(existant, contenu)), DEBUT, FIN) == Some(Corps(contenu))
  {
    hide *;
    var l := LignesAvant(existant);
    var n := |l| - 1;
    var corps := [AVIS] + Split(SansFins(contenu));
    var suite := [FIN] + Split(Fermeture(Apres(existant)));
    LignesDuTexte(existant, contenu);
    AvantSansLigneDebut(existant);
    OuvertureNette(existant);
    CorpsPropre(contenu);
    FinNette();
    ExtraireBlocPose(l[..n], l[n] + DEBUT, corps, suite, DEBUT, FIN);
    JoinCorps(contenu);
  }

  function LignesAvant(existant: string): (l: seq<string>)
    ensures |l| >= 1
  {
    Split(Avant(existant))
  }

  lemma LignesDuTexte(existant: string, contenu: string)
    ensures var l := LignesAvant(existant); var n := |l| - 1;
            Split(RemplacerBloc(existant, contenu))
            == l[..n] + [l[n] + DEBUT]
               + ([AVIS] + Split(SansFins(contenu)))
               + ([FIN] + Split(Fermeture(Apres(existant))))
  {
    hide *;
    var a, c, z := Avant(existant), SansFins(contenu), Fermeture(Apres(existant));
    PremierPassage(existant, contenu);
    BlocEnLignes(contenu, z);
    Balises();
    var s := AVIS + "\n" + (c + "\n" + (FIN + "\n" + z));
    assert a + (DEBUT + "\n" + s) == a + DEBUT + "\n" + s;
    SplitCoupe(a + DEBUT, s);
    SplitColle(a, DEBUT);
    SuiteEnLignes(c, z);
    LignesAvantDef(existant);
    var x, y, w := DernierePlus(Split(a), DEBUT), [AVIS] + Split(c), [FIN] + Split(z);
    assert x + (y + w) == x + y + w;
    DernierePlusDef(Split(a), DEBUT);
  }

  lemma LignesAvantDef(existant: string)
    ensures LignesAvant(existant) == Split(Avant(existant))
  {
  }

  lemma DernierePlusDef(l: seq<string>, m: string)
    requires l != []
    ensures DernierePlus(l, m) == l[..|l| - 1] + [l[|l| - 1] + m]
  {
  }

  lemma BlocEnLignes(contenu: string, z: string)
    ensures BlocGere(contenu) + z == DEBUT + "\n" + (AVIS + "\n" + (SansFins(contenu) + "\n" + (FIN + "\n" + z)))
  {
    hide SansFins;
    var c := SansFins(contenu);
    Enchainer(DEBUT + "\n", AVIS + "\n", c + "\n", FIN + "\n", z);
    assert BlocGere(contenu) == DEBUT + "\n" + (AVIS + "\n") + (c + "\n") + (FIN + "\n");
  }

  lemma Enchainer(a: string, b: string, c: string, d: string, e: string)
    ensures a + b + c + d + e == a + (b + (c + (d + e)))
  {
  }

  lemma SuiteEnLignes(c: string, z: string)
    ensures Split(AVIS + "\n" + (c + "\n" + (FIN + "\n" + z))) == [AVIS] + Split(c) + ([FIN] + Split(z))
  {
    hide Split;
    Balises();
    SplitCoupe(AVIS, c + "\n" + (FIN + "\n" + z));
    SplitCoupe(c, FIN + "\n" + z);
    SplitCoupe(FIN, z);
    SplitUneLigne(AVIS);
    SplitUneLigne(FIN);
    assert [AVIS] + (Split(c) + ([FIN] + Split(z))) == [AVIS] + Split(c) + ([FIN] + Split(z));
  }

  lemma AvantSansLigneDebut(existant: string)
    ensures var l := LignesAvant(existant); forall i | 0 <= i < |l| - 1 :: TrimSpace(l[i]) != DEBUT
  {
    hide Avant, TrimSpace, Split, SousMot;
    var a := Avant(existant);
    var l := LignesAvant(existant);
    Balises();
    forall i | 0 <= i < |l| - 1 ensures TrimSpace(l[i]) != DEBUT {
      TrimContient(l[i]);
      AvantNeContientPas(existant);
      LigneAbsente(a, i);
    }
  }

  lemma LigneAbsente(a: string, i: nat)
    requires i < |Split(a)| && UneLigne(DEBUT) && !Contient(a, DEBUT)
    ensures !Contient(Split(a)[i], DEBUT)
  {
    hide Split, SousMot;
    if Contient(Split(a)[i], DEBUT) { LigneContient(a, DEBUT, i); }
  }

  lemma AvantNeContientPas(existant: string)
    ensures !Contient(Avant(existant), DEBUT)
  {
    hide Avant;
    var a := Avant(existant);
    forall k: nat | k <= |a| ensures !SousMot(a, k, DEBUT) {
      if k < |a| {
        AvantSansDebut(existant, k);
        if k + |DEBUT| <= |a| { assert a[k..k + |DEBUT|] == (a + DEBUT)[k..k + |DEBUT|]; }
      }
    }
  }

  lemma OuvertureNette(existant: string)
    requires SeuleSurSaLigne(existant)
    ensures var l := LignesAvant(existant); TrimSpace(l[|l| - 1] + DEBUT) == DEBUT
  {
    hide Avant, Split;
    var l := LignesAvant(existant);
    BalisesNettes();
    TrimGaucheBlancs(l[|l| - 1], DEBUT);
    TrimNette(DEBUT);
  }

  lemma CorpsPropre(contenu: string)
    requires CorpsSansFin(contenu)
    ensures forall i | 0 <= i < |[AVIS] + Split(SansFins(contenu))| ::
        TrimSpace(([AVIS] + Split(SansFins(contenu)))[i]) != FIN
  {
    hide Split, SansFins;
    BalisesNettes();
    TrimNette(AVIS);
    assert AVIS[2] == 'B' && FIN[2] == '>';
  }

  lemma FinNette()
    ensures TrimSpace(FIN) == FIN
  {
    BalisesNettes();
    TrimNette(FIN);
  }

  lemma JoinCorps(contenu: string)
    ensures Join([AVIS] + Split(SansFins(contenu))) == Corps(contenu)
  {
    hide Split, SansFins;
    var l := [AVIS] + Split(SansFins(contenu));
    JoinSplit(SansFins(contenu));
    assert l[1..] == Split(SansFins(contenu));
  }
}
