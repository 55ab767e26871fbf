/** What acceptance gives when the lines are spelled plainly: types and words in lower case, no blank around an
    equals sign (secours.go:24-27). */
module SecoursClair {
  import opened Options
  import opened Texte
  import opened ConfTextes
  import opened Secours
  import opened SecoursPAM

  /** No blank beside an equals sign. */
  ghost predicate Serree(t: string) {
    forall i | 0 <= i < |t| && t[i] == '=' ::
      (i > 0 ==> !EstBlanc(t[i - 1])) && (i + 1 < |t| ==> !EstBlanc(t[i + 1]))
  }

  /** A line as the shipped files write them: the type in lower case, the control one of the four words, in lower
      case and out of brackets, or pairs, closed by their bracket, without blanks around the equals signs. */
  ghost predicate Claire(l: string) {
    var c, k := Champs(TrimSpace(l)), Controle(TrimSpace(l));
    && (c != [] && Minuscules(c[0]) in {"auth", "-auth"} ==> EstAuth(c[0]))
    && (Minuscules(SansCrochets(k)) == "requisite" ==> k == "requisite")
    && (Commence(k, "[") ==> |k| >= 2 && k[|k| - 1] == ']')
    && Serree(SansCrochets(k))
  }

  // --- one pair of a control ------------------------------------------------------------------

  lemma SerreeFin(t: string, k: nat)
    requires Serree(t) && k <= |t|
    ensures Serree(t[k..])
  {
  }

  lemma BlancsDecales(t: string, e: nat, g: nat)
    requires e + g <= |t| && forall i | 0 <= i < g :: EstBlanc(t[e..][i])
    ensures forall i | e <= i < e + g :: EstBlanc(t[i])
  {
    hide EstBlanc;
    forall i | e <= i < e + g ensures EstBlanc(t[i]) { assert t[i] == t[e..][i - e]; }
  }

  lemma PasDeBlanc(t: string, e: nat, g: nat)
    requires Serree(t) && e + g < |t| && t[e + g] == '=' && forall i | e <= i < e + g :: EstBlanc(t[i])
    ensures g == 0
  {
    hide EstBlanc;
    var i := e + g;
    assert i > 0 ==> !EstBlanc(t[i - 1]);
  }

  lemma RienAvantLeSigne(t: string, e: nat)
    requires Serree(t) && e <= |t| && Commence(TrimGauche(t[e..]), "=")
    ensures TrimGauche(t[e..]) == t[e..]
  {
    hide EstBlanc;
    var g := TrimGaucheDebut(t[e..]);
    assert t[e + g] == t[e..][g] == '=';
    BlancsDecales(t, e, g);
    PasDeBlanc(t, e, g);
  }

  lemma RienApresLeSigne(t: string, e: nat)
    requires Serree(t) && e < |t| && t[e] == '='
    ensures TrimGauche(t[e + 1..]) == t[e + 1..]
  {
    hide EstBlanc;
    var g := TrimGaucheDebut(t[e + 1..]);
    BlancsDecales(t, e + 1, g);
  }

  /** What LirePaires finds when it finds something. */
  lemma LireUne(t: string, p: seq<Paire>)
    requires LirePaires(t) == Some(p) && p != []
    ensures var s := TrimGauche(t);
            var c := CodeEnTete(s);
            var u := TrimGauche(s[|c|..]);
            && p[0].code == c && (c in RETOURS || c == DEFAUT) && Commence(u, "=")
            && var w := TrimGauche(u[1..]);
            LireAction(w).Some? && LireAction(w).value.0 == p[0].action
            && LirePaires(w[LireAction(w).value.1..]) == Some(p[1..])
  {
    hide LireAction, EstBlanc, RETOURS;
  }

  /** The first pair: blanks up to `b`, its code up to `e`, its equals sign, its action up to `k`. */
  lemma UnePaire(t: string, p: seq<Paire>) returns (b: nat, e: nat, k: nat)
    requires Serree(t) && LirePaires(t) == Some(p) && p != []
    ensures b <= e && e + 1 < k <= |t| && (forall i | 0 <= i < b :: EstBlanc(t[i])) && t[e] == '='
    ensures t[b..e] == p[0].code && (p[0].code in RETOURS || p[0].code == DEFAUT)
    ensures forall i | b <= i < e :: LettreDeCode(t[i])
    ensures LireAction(t[e + 1..]) == Some((p[0].action, k - e - 1))
    ensures LirePaires(t[k..]) == Some(p[1..]) && Serree(t[k..])
  {
    hide LirePaires, LireAction, EstBlanc, RETOURS, TrimGauche, CodeEnTete, Serree, LettreDeCode;
    LireUne(t, p);
    b := TrimGaucheDebut(t);
    var s := t[b..];
    var c := CodeEnTete(s);
    e := b + |c|;
    assert s[|c|..] == t[e..] && t[b..e] == s[..|c|] == c;
    RienAvantLeSigne(t, e);
    assert t[e] == t[e..][0] == '=' && t[e..][1..] == t[e + 1..];
    RienApresLeSigne(t, e);
    k := e + 1 + LireAction(t[e + 1..]).value.1;
    assert t[e + 1..][k - e - 1..] == t[k..];
    SerreeFin(t, k);
    assert forall i | b <= i < e :: t[i] == c[i - b];
  }

  /** The letters of an action: no equals sign, and an end that is none of the first letters of `ignore`. */
  lemma Jeton(w: string)
    requires LireAction(w).Some?
    ensures var (a, n) := LireAction(w).value;
            && (forall i | 0 <= i < n :: w[i] != '=')
            && w[n - 1] !in {'i', 'g', 'n', 'o', 'r'}
            && (a == Mourir ==> Commence(w, "die"))
            && (Commence(w, "ignore") ==> a == Ignorer)
  {
    var n := LireAction(w).value.1;
    if Commence(w, "ignore") {
      UnMot(w, "ignore");
    } else if Commence(w, "ok") {
      UnMot(w, "ok");
    } else if Commence(w, "done") {
      UnMot(w, "done");
    } else if Commence(w, "bad") {
      UnMot(w, "bad");
    } else if Commence(w, "die") {
      UnMot(w, "die");
    } else if Commence(w, "reset") {
      UnMot(w, "reset");
    } else {
      hide EstChiffre;
      assert n == |ChiffresEnTete(w)| && forall i | 0 <= i < n :: w[i] == ChiffresEnTete(w)[i];
      PasUnChiffre();
    }
  }

  lemma PasUnChiffre()
    ensures forall c | c in {'i', 'g', 'n', 'o', 'r', '='} :: !EstChiffre(c)
  {
  }

  lemma UnMot(w: string, m: string)
    requires m in {"ignore", "ok", "done", "bad", "die", "reset"} && Commence(w, m)
    ensures (forall i | 0 <= i < |m| :: w[i] != '=') && w[|m| - 1] !in {'i', 'g', 'n', 'o', 'r'}
  {
    assert forall i | 0 <= i < |m| :: w[i] == m[i];
  }

  lemma SousMotFin(t: string, k: nat, i: nat, m: string)
    requires k <= |t| && SousMot(t[k..], i, m)
    ensures SousMot(t, k + i, m)
  {
    assert t[k..][i..i + |m|] == t[k + i..k + i + |m|];
  }

  // --- `die` is written where it is read ----------------------------------------------------------

  lemma {:induction false} MortEcrite(t: string, p: seq<Paire>, i: nat)
    requires Serree(t) && LirePaires(t) == Some(p) && i < |p| && p[i].action == Mourir
    ensures Contient(t, "=die")
    decreases |p|
  {
    hide LirePaires, LireAction, EstBlanc, RETOURS;
    var b, e, k := UnePaire(t, p);
    if i == 0 {
      Jeton(t[e + 1..]);
      assert t[e..e + 4] == "=" + t[e + 1..][..3] == "=die";
      assert SousMot(t, e, "=die");
    } else {
      MortEcrite(t[k..], p[1..], i - 1);
      var j :| 0 <= j <= |t[k..]| && SousMot(t[k..], j, "=die");
      SousMotFin(t, k, j, "=die");
    }
  }

  lemma {:induction false} ActionEcrite(p: seq<Paire>, r: Code) returns (i: nat)
    requires ActionPour(p, r) == Mourir
    ensures i < |p| && p[i].action == Mourir
  {
    if Donnee(p, r).Some? {
      i := EcriteParNom(p, r);
    } else {
      i := EcriteParDefaut(p);
    }
  }

  lemma {:induction false} EcriteParNom(p: seq<Paire>, r: Code) returns (i: nat)
    requires Donnee(p, r).Some?
    ensures i < |p| && p[i].code == r && Donnee(p, r) == Some(p[i].action)
  {
    i := |p| - 1;
    if p[i].code != r { i := EcriteParNom(p[..i], r); }
  }

  lemma {:induction false} EcriteParDefaut(p: seq<Paire>) returns (i: nat)
    requires ParDefaut(p) == Mourir
    ensures i < |p| && p[i].action == Mourir
  {
    i := 0;
    if p[0].code != DEFAUT {
      i := EcriteParDefaut(p[1..]);
      i := i + 1;
    }
  }

  /** The line the check looks at, when PAM reads it as a call of a module. */
  lemma LigneAppel(l: string)
    requires Claire(l) && EtapeDe(l).Appel?
    ensures !Distribution(l) && !Commentaire(l)
    ensures Champs(TrimSpace(l)) != [] && EstAuth(Champs(TrimSpace(l))[0])
    ensures EtapeDe(l) == Appel(Jeu(SansCrochets(Controle(TrimSpace(l)))))
  {
    hide Distribution, Commentaire, Controle, Jeu, Champs;
  }

  /** A control that ends everything on some result says `requisite`, or names the action in a pair. */
  lemma JeuMortel(w: string, r: Code) returns (i: nat)
    requires ActionPour(Jeu(w), r) == Mourir && Minuscules(w) != "requisite"
    ensures LirePaires(w).Some? && i < |LirePaires(w).value| && LirePaires(w).value[i].action == Mourir
  {
    hide LirePaires, ActionPour;
    i := ActionEcrite(Jeu(w), r);
  }

  lemma SansMort(k: string, r: Code)
    requires Serree(SansCrochets(k)) && (Minuscules(SansCrochets(k)) == "requisite" ==> k == "requisite")
    requires k != "requisite" && !Contient(k, "=die")
    ensures ActionPour(Jeu(SansCrochets(k)), r) != Mourir
  {
    hide LirePaires, ActionPour, Jeu, Serree;
    var w := SansCrochets(k);
    if ActionPour(Jeu(w), r) == Mourir {
      var i := JeuMortel(w, r);
      MortEcrite(w, LirePaires(w).value, i);
      var j :| 0 <= j <= |w| && SousMot(w, j, "=die");
      if w != k {
        assert w == k[1..|k| - 1];
        SousMotMilieu(k, w, j, "=die");
      }
    }
  }

  lemma SousMotMilieu(k: string, w: string, j: nat, m: string)
    requires |k| >= 2 && w == k[1..|k| - 1] && SousMot(w, j, m)
    ensures SousMot(k, j + 1, m) && Contient(k, m)
  {
    forall i | 0 <= i < |m| ensures k[j + 1..j + 1 + |m|][i] == m[i] { assert w[j..j + |m|][i] == m[i]; }
    assert k[j + 1..j + 1 + |m|] == m;
    assert SousMot(k, j + 1, m);
  }

  /** A line the check passes over, spelled plainly, has no result that ends everything. */
  lemma PasDeMort(l: string, r: Code)
    requires Claire(l) && !Coupe(l) && EtapeDe(l).Appel?
    ensures ActionPour(EtapeDe(l).paires, r) != Mourir
  {
    hide Distribution, Commentaire, Controle, Jeu, Champs, Contient, Serree, EtapeDe, ActionPour, SansCrochets;
    LigneAppel(l);
    SansMort(Controle(TrimSpace(l)), r);
  }

  // --- `ignore` is read where it is written ---------------------------------------------------------

  lemma CodesEnIgnore(c: string)
    requires (c in RETOURS || c == DEFAUT) && |c| >= 6 && c[|c| - 6..] == "ignore"
    ensures c == "ignore"
  {
    var n := |c|;
    assert c[n - 1] == c[n - 6..][5] == 'e' && c[n - 2] == c[n - 6..][4] == 'r' && c[n - 3] == c[n - 6..][3] == 'o';
  }

  lemma ToutesBlanches(t: string, q: nat)
    requires LirePaires(t) == Some([]) && q < |t|
    ensures EstBlanc(t[q])
  {
    hide EstBlanc, LireAction, RETOURS;
    var b := TrimGaucheDebut(t);
    assert TrimGauche(t) == "" by { SansPaire(t); }
  }

  lemma SansPaire(t: string)
    requires LirePaires(t) == Some([])
    ensures TrimGauche(t) == ""
  {
    hide EstBlanc, LireAction, RETOURS, TrimGauche;
  }

  lemma LettresDuMot(t: string, q: nat)
    requires SousMot(t, q, "ignore=ignore")
    ensures t[q + 6] == '=' && !EstBlanc(t[q]) && t[q..q + 6] == "ignore"
    ensures forall i | q <= i < q + 6 :: !EstBlanc(t[i]) && LettreDeCode(t[i])
    ensures t[q] == 'i' && t[q + 1] == 'g' && t[q + 2] == 'n' && t[q + 3] == 'o' && t[q + 4] == 'r' && t[q + 5] == 'e'
  {
    var m := t[q..q + 13];
    assert m == "ignore=ignore";
    assert forall i | 0 <= i < 13 :: t[q + i] == m[i];
    assert m[..6] == "ignore" == t[q..q + 6];
  }

  /** Where the text `ignore=` of a control can lie: in its first pair, or past it. */
  lemma IgnoreEnTete(t: string, p: seq<Paire>, q: nat, b: nat, e: nat, k: nat)
    requires b <= e && e + 1 < k <= |t| && (forall i | 0 <= i < b :: EstBlanc(t[i])) && t[e] == '='
    requires SousMot(t, q, "ignore=ignore") && LirePaires(t[k..]).Some?
    requires t[b..e] in RETOURS || t[b..e] == DEFAUT
    requires forall i | b <= i < e :: LettreDeCode(t[i])
    requires LireAction(t[e + 1..]).Some? && LireAction(t[e + 1..]).value.1 == k - e - 1
    requires q < k
    ensures t[b..e] == "ignore"
  {
    hide EstBlanc, LireAction, LirePaires, RETOURS, LettreDeCode;
    LettresDuMot(t, q);
    Jeton(t[e + 1..]);
    assert t[k - 1] == t[e + 1..][k - e - 2];
    SuiteSansSigne(t, k);
    assert forall i | e < i < k :: t[i] == t[e + 1..][i - e - 1];
    assert q + 6 == e by { SigneEnTete(t, b, e); }
    assert t[b..e][|t[b..e]| - 6..] == t[q..e];
    CodesEnIgnore(t[b..e]);
  }

  lemma SigneEnTete(t: string, b: nat, e: nat)
    requires b <= e < |t| && (forall i | 0 <= i < b :: EstBlanc(t[i])) && forall i | b <= i < e :: LettreDeCode(t[i])
    ensures forall i | 0 <= i < e :: t[i] != '='
  {
  }

  /** What follows an action is not an equals sign. */
  lemma SuiteSansSigne(t: string, k: nat)
    requires k <= |t| && LirePaires(t[k..]).Some?
    ensures k < |t| ==> t[k] != '='
  {
    hide LireAction;
    CodesNonVides();
  }

  lemma CodesNonVides()
    ensures "" !in RETOURS && "" != DEFAUT
  {
  }

  lemma {:induction false} IgnoreLu(t: string, p: seq<Paire>, q: nat) returns (i: nat)
    requires Serree(t) && LirePaires(t) == Some(p) && SousMot(t, q, "ignore=ignore")
    ensures i < |p| && p[i].code == "ignore"
    decreases |p|
  {
    hide LirePaires, LireAction, EstBlanc, RETOURS, LettreDeCode, Serree;
    LettresDuMot(t, q);
    if p == [] {
      ToutesBlanches(t, q);
      assert false;
    }
    var b, e, k := UnePaire(t, p);
    i := 0;
    if q < k {
      IgnoreEnTete(t, p, q, b, e, k);
    } else {
      assert t[k..][q - k..q - k + 13] == t[q..q + 13];
      i := IgnoreLu(t[k..], p[1..], q - k);
      i := i + 1;
    }
  }

  /** Wherever a text gives something to `ignore`, it gives it `ignore`. */
  ghost predicate IgnoreSeul(t: string) {
    forall q: nat | SousMot(t, q, "ignore=") :: SousMot(t, q, "ignore=ignore")
  }

  lemma {:induction false} IgnoreDonne(t: string, p: seq<Paire>, i: nat)
    requires Serree(t) && LirePaires(t) == Some(p) && i < |p| && p[i].code == "ignore" && IgnoreSeul(t)
    ensures p[i].action == Ignorer
    decreases |p|
  {
    hide LirePaires, LireAction, EstBlanc, RETOURS, LettreDeCode, Serree;
    var b, e, k := UnePaire(t, p);
    if i == 0 {
      assert t[b..e + 1] == t[b..e] + "=" == "ignore=";
      assert SousMot(t, b, "ignore=");
      assert t[b..b + 13] == "ignore=ignore";
      assert t[e + 1..][..6] == t[b..b + 13][7..] == "ignore";
      Jeton(t[e + 1..]);
    } else {
      IgnoreSeulFin(t, k);
      IgnoreDonne(t[k..], p[1..], i - 1);
    }
  }

  lemma IgnoreSeulFin(t: string, k: nat)
    requires IgnoreSeul(t) && k <= |t|
    ensures IgnoreSeul(t[k..])
  {
    forall q: nat | SousMot(t[k..], q, "ignore=") ensures SousMot(t[k..], q, "ignore=ignore") {
      SousMotFin(t, k, q, "ignore=");
      assert SousMot(t, k + q, "ignore=ignore");
      assert t[k..][q..q + 13] == t[k + q..k + q + 13];
    }
  }

  lemma {:induction false} NommeDonne(p: seq<Paire>, i: nat)
    requires i < |p|
    ensures Donnee(p, p[i].code).Some?
  {
    if i < |p| - 1 { NommeDonne(p[..|p| - 1], i); }
  }

  // --- the two directions ---------------------------------------------------------------------------

  /** The line of the module, in plain spelling, lets an ignored account go on. */
  lemma ModuleDoux(l: string)
    requires Claire(l) && Contient(Controle(l), "ignore=ignore") && IgnoreSeul(SansCrochets(Controle(l)))
    requires ChargeVaultaire(l)
    ensures EtapeDe(l).Absente?
        || (EtapeDe(l).Appel? && ActionPour(EtapeDe(l).paires, "ignore") in {Ignorer, Mauvais})
  {
    hide Distribution, Commentaire, Controle, Contient, Champs, Serree, SansCrochets, ActionPour, Jeu, NommeUnModule;
    ControleTrim(l);
    ChampsTrim(l);
    var k := Controle(l);
    var w := SansCrochets(k);
    IgnoreDedans(k);
    var q: nat :| SousMot(w, q, "ignore=ignore");
    PasDistribution(l);
    JeuIgnore(w, q);
    assert |Minuscules(w)| > 8;
  }

  lemma ControleTrim(l: string)
    ensures Controle(TrimSpace(l)) == Controle(l)
  {
    TrimNette(TrimSpace(l));
  }

  /** The bracket that closes a control is no letter of it. */
  lemma IgnoreDedans(k: string)
    requires Contient(k, "ignore=ignore") && (Commence(k, "[") ==> |k| >= 2 && k[|k| - 1] == ']')
    ensures exists q: nat :: SousMot(SansCrochets(k), q, "ignore=ignore")
  {
    var q :| 0 <= q <= |k| && SousMot(k, q, "ignore=ignore");
    var m := k[q..q + 13];
    var w := SansCrochets(k);
    assert m == "ignore=ignore" && k[q] == m[0] == 'i' && k[q + 12] == m[12] == 'e';
    if Commence(k, "[") {
      assert k[0] == '[';
      assert w == k[1..|k| - 1] && q >= 1 && q + 13 <= |k| - 1;
      forall i | 0 <= i < 13 ensures w[q - 1..q + 12][i] == m[i] { assert k[q + i] == m[i]; }
      assert SousMot(w, q - 1, "ignore=ignore");
    } else {
      assert SousMot(w, q, "ignore=ignore");
    }
  }

  /** The control of a line of the distribution is too short for it. */
  lemma PasDistribution(l: string)
    requires Contient(Controle(l), "ignore=ignore")
    ensures !Distribution(l)
  {
    hide Champs, TrimSpace, Commentaire;
    var q :| 0 <= q <= |Controle(l)| && SousMot(Controle(l), q, "ignore=ignore");
    hide Indice;
    assert "substack"[0] == 's' && "include"[0] == 'i' && "common-auth"[0] == 'c';
  }

  lemma JeuIgnore(w: string, q: nat)
    requires Serree(w) && SousMot(w, q, "ignore=ignore") && IgnoreSeul(w)
    ensures ActionPour(Jeu(w), "ignore") in {Ignorer, Mauvais}
  {
    hide LirePaires, Serree, IgnoreSeul;
    assert |Minuscules(w)| > 10;
    if LirePaires(w).Some? {
      var p := LirePaires(w).value;
      var i := IgnoreLu(w, p, q);
      NommeDonne(p, i);
      var j := EcriteParNom(p, "ignore");
      IgnoreDonne(w, p, j);
    }
  }

  /** What is left to ask of the lines between the module and the distribution: no jump, and no file included. */
  ghost predicate SansDetour(e: Etape) {
    e != Inclusion && (e.Appel? ==> forall r: Code :: !ActionPour(e.paires, r).Saut?)
  }

  /** The lines from `d` up to the first of the distribution. */
  ghost predicate Devant(ls: seq<string>, d: nat, k: nat) {
    d <= k < |ls| && forall i | d < i <= k :: !Distribution(ls[i])
  }

  /** Every line from that of the module up to the distribution is spelled plainly, none but it jumps or includes. */
  ghost predicate ToutClair(ls: seq<string>, d: nat)
    requires d < |ls|
  {
    && IgnoreSeul(SansCrochets(Controle(ls[d])))
    && (forall k | d <= k < |ls| && Devant(ls, d, k) :: Claire(ls[k]))
    && (forall k | d < k < |ls| && Devant(ls, d, k) :: SansDetour(EtapeDe(ls[k])))
  }

  /** An accepted stack keeps the door under the control flow of PAM, for plainly spelled lines that neither jump nor
      include: the line of the module goes on because it says `ignore=ignore`, and the lines after it because the
      check passed over them. */
  lemma AccepteeVraie(ls: seq<string>, d: nat)
    requires d < |ls| && ToutClair(ls, d) && PorteOuverte(ls) && PremierModule(ls, d)
    ensures PorteVraie(ls, d)
  {
    hide Claire, EtapeDe, Distribution, Contient, Controle, IgnoreSeul, SansCrochets, ActionPour, ChargeVaultaire,
         Coupe;
    var e: nat, j: nat :| PremierModule(ls, e) && Contient(Controle(ls[e]), "ignore=ignore") && Atteint(ls, e, j);
    assert e == d;
    var i := PremiereDistribution(ls, d, j);
    assert Devant(ls, d, d) && forall k | d < k < i :: Devant(ls, d, k);
    ModuleDoux(ls[d]);
    ModuleRemplace(ls, d);
    forall k | d < k < i ensures Douce(Etapes(ls, d)[k]) {
      LigneDouce(ls[k]);
    }
    AccepteeDouce(ls, d, i);
  }

  lemma {:induction false} PremiereDistribution(ls: seq<string>, d: nat, j: nat) returns (i: nat)
    requires d < j < |ls| && Distribution(ls[j])
    ensures d < i <= j && Distribution(ls[i]) && forall k | d < k < i :: !Distribution(ls[k])
    decreases j
  {
    hide Distribution;
    i := j;
    if k: nat :| d < k < j && Distribution(ls[k]) { i := PremiereDistribution(ls, d, k); }
  }

  lemma ModuleRemplace(ls: seq<string>, d: nat)
    requires d < |ls|
    requires EtapeDe(ls[d]).Absente?
        || (EtapeDe(ls[d]).Appel? && ActionPour(EtapeDe(ls[d]).paires, "ignore") in {Ignorer, Mauvais})
    ensures Douce(Etapes(ls, d)[d])
  {
    hide EtapeDe, ActionPour;
    if EtapeDe(ls[d]).Appel? {
      var a := ActionPour(EtapeDe(ls[d]).paires, "ignore");
      forall r: Code ensures ActionPour([Paire(DEFAUT, a)], r) == a { ActionUne(a, r); }
    }
  }

  lemma LigneDouce(l: string)
    requires Claire(l) && !Coupe(l) && !Distribution(l) && SansDetour(EtapeDe(l))
    ensures Douce(EtapeDe(l))
  {
    hide Claire, Coupe, ActionPour, Distribution, Controle, Jeu, Champs, Commentaire, SansCrochets;
    if EtapeDe(l).Appel? {
      forall r: Code ensures ActionPour(EtapeDe(l).paires, r) != Mourir { PasDeMort(l, r); }
    }
  }

  /** The other way: after gentle lines, a `requisite` line, or the end of the stack, does close the door. */
  lemma RefuseeFermee(ls: seq<string>, d: nat, j: nat)
    requires Indecis(ls, d, j) && forall k | d <= k < j :: Douce(Etapes(ls, d)[k])
    requires j < |ls| ==> Coupe(ls[j]) && Controle(TrimSpace(ls[j])) == "requisite"
    ensures !PorteVraie(ls, d)
  {
    hide Coupe, Controle, EtapeDe, Douce, ActionPour, PremierModule, Distribution;
    var es := Etapes(ls, d);
    if j < |ls| { RequisiteMortel(ls[j]); }
    DoucesAccessibles(es, d, j);
    PorteVraieSsi(ls, d);
  }

  lemma {:induction false} DoucesAccessibles(es: seq<Etape>, d: nat, j: nat)
    requires d <= j <= |es| && forall k | d <= k < j :: Douce(es[k])
    ensures Accessible(es, d, j)
    decreases j
  {
    hide ActionPour;
    if d < j {
      DoucesAccessibles(es, d, j - 1);
      if es[j - 1].Appel? {
        var r: Code := "ignore";
        assert j == Destination(es, j - 1, ActionPour(es[j - 1].paires, r));
      }
      assert Mene(es, j - 1, j);
    }
  }

  lemma RequisiteMortel(l: string)
    requires Coupe(l) && Controle(TrimSpace(l)) == "requisite"
    ensures EtapeDe(l).Appel? && ActionPour(EtapeDe(l).paires, "auth_err") == Mourir
  {
    hide Champs, TrimSpace, Controle, Distribution, Commentaire, Contient, ActionPour;
    assert Minuscules("requisite") == "requisite" && Minuscules("auth") == "auth" && Minuscules("-auth") == "-auth";
    assert "requisite"[0] == 'r';
    JeuRequisite();
  }

  lemma JeuRequisite()
    ensures ActionPour(Jeu("requisite"), "auth_err") == Mourir
  {
    assert |"auth_err"| == 8 && |"success"| == 7 && |"new_authtok_reqd"| == 16 && |"ignore"| == 6;
    QuatreMots("auth_err");
  }
}
