/** Lines, fields and version markers of the configuration files (transformations.go, secours.go). */
module ConfTextes {
  import opened Texte

  /** The file a producer gives, or its refusal. */
  datatype Resultat<T> = Ok(value: T) | PileNonBranchable | NSSIncomplet

  // --- lines ------------------------------------------------------------------------

  /** strings.TrimSuffix(s, "\n") */
  function SansFin(s: string): string {
    if s != "" && s[|s| - 1] == '\n' then s[..|s| - 1] else s
  }

  /** `lignes` */
  function Lignes(contenu: string): seq<string> {
    if contenu == "" then [] else Split(SansFin(contenu))
  }

  /** `joindre` */
  function Joindre(l: seq<string>): string {
    if l == [] then "" else Join(l) + "\n"
  }

  ghost predicate DesLignes(l: seq<string>) { forall i | 0 <= i < |l| :: UneLigne(l[i]) }

  lemma LignesJoindre(l: seq<string>)
    requires DesLignes(l)
    ensures Lignes(Joindre(l)) == l
  {
    if l != [] {
      SplitJoin(l);
      assert SansFin(Join(l) + "\n") == Join(l);
    }
  }

  /** Reading and writing back changes at most the end of the file, which gets its line break. */
  lemma JoindreLignes(contenu: string)
    ensures DesLignes(Lignes(contenu))
    ensures Joindre(Lignes(contenu)) ==
            if contenu == "" || contenu[|contenu| - 1] == '\n' then contenu else contenu + "\n"
  {
    JoinSplit(SansFin(contenu));
  }

  lemma {:induction false} JoindreConcat(a: seq<string>, b: seq<string>)
    ensures Joindre(a + b) == Joindre(a) + Joindre(b)
  {
    hide *;
    if a == [] {
      JoindreRien(b);
    } else {
      JoindreConcat(a[1..], b);
      JoindreTete(a);
      JoindreTete(a + b);
      assert (a + b)[0] == a[0] && (a + b)[1..] == a[1..] + b;
      Associe(a[0] + "\n", Joindre(a[1..]), Joindre(b));
    }
  }

  lemma JoindreRien(b: seq<string>)
    ensures Joindre([] + b) == Joindre([]) + Joindre(b)
  {
    assert [] + b == b;
    assert "" + Joindre(b) == Joindre(b);
  }

  lemma Associe<T>(x: seq<T>, y: seq<T>, z: seq<T>)
    ensures x + (y + z) == x + y + z
  {
  }

  lemma JoindreTete(l: seq<string>)
    requires l != []
    ensures Joindre(l) == l[0] + "\n" + Joindre(l[1..])
  {
  }

  /** The lines that satisfy none of the rejections, in order. */
  function Garder(l: seq<string>, rejet: string -> bool): (r: seq<string>)
    ensures forall x | x in r :: !rejet(x) && x in l
  {
    if l == [] then []
    else
      var r := Garder(l[..|l| - 1], rejet);
      if rejet(l[|l| - 1]) then r else r + [l[|l| - 1]]
  }

  lemma {:induction false} GarderConcat(a: seq<string>, b: seq<string>, rejet: string -> bool)
    ensures Garder(a + b, rejet) == Garder(a, rejet) + Garder(b, rejet)
  {
    hide *;
    if b == [] {
      GarderAucune(a, rejet);
    } else {
      var n := |b| - 1;
      GarderConcat(a, b[..n], rejet);
      assert (a + b)[..|a + b| - 1] == a + b[..n] && (a + b)[|a + b| - 1] == b[n];
      GarderDerniere(b, rejet);
      GarderDerniere(a + b, rejet);
      Associe(Garder(a, rejet), Garder(b[..n], rejet), if rejet(b[n]) then [] else [b[n]]);
    }
  }

  lemma GarderAucune(a: seq<string>, rejet: string -> bool)
    ensures Garder(a + [], rejet) == Garder(a, rejet) + Garder([], rejet)
  {
    assert a + [] == a;
  }

  lemma GarderDerniere(l: seq<string>, rejet: string -> bool)
    requires l != []
    ensures var n := |l| - 1;
            Garder(l, rejet) == Garder(l[..n], rejet) + (if rejet(l[n]) then [] else [l[n]])
  {
  }

  lemma {:induction false} GarderTout(l: seq<string>, rejet: string -> bool)
    requires forall x | x in l :: !rejet(x)
    ensures Garder(l, rejet) == l
  {
    if l != [] {
      GarderTout(l[..|l| - 1], rejet);
      assert l == l[..|l| - 1] + [l[|l| - 1]];
    }
  }

  lemma {:induction false} GarderRien(l: seq<string>, rejet: string -> bool)
    requires forall x | x in l :: rejet(x)
    ensures Garder(l, rejet) == []
  {
    if l != [] { GarderRien(l[..|l| - 1], rejet); }
  }

  /** The first line that satisfies the condition, or the end. */
  function Premier(l: seq<string>, p: string -> bool): (i: nat)
    ensures i <= |l| && (i < |l| ==> p(l[i]))
    ensures forall k | 0 <= k < i :: !p(l[k])
  {
    if l == [] || p(l[0]) then 0 else 1 + Premier(l[1..], p)
  }

  // --- words ------------------------------------------------------------------------

  predicate SansBlanc(s: string) { forall i | 0 <= i < |s| :: !EstBlanc(s[i]) }

  /** The run of non-blank characters that opens `s`. */
  function Mot(s: string): (m: string)
    ensures m <= s && SansBlanc(m)
    ensures |m| < |s| ==> EstBlanc(s[|m|])
  {
    if s == "" || EstBlanc(s[0]) then "" else [s[0]] + Mot(s[1..])
  }

  /** strings.Fields */
  function Champs(s: string): (c: seq<string>)
    ensures forall i | 0 <= i < |c| :: c[i] != "" && SansBlanc(c[i])
    decreases |s|
  {
    var t := TrimGauche(s);
    if t == "" then [] else [Mot(t)] + Champs(t[|Mot(t)|..])
  }

  lemma {:induction false} MotSuivi(m: string, s: string)
    requires SansBlanc(m) && (s == "" || EstBlanc(s[0]))
    ensures Mot(m + s) == m
  {
    if m == "" {
      assert m + s == s;
    } else {
      MotSuivi(m[1..], s);
      assert (m + s)[1..] == m[1..] + s;
    }
  }

  /** Blanks, a word, and what follows it. */
  lemma ChampsMot(b: string, m: string, s: string)
    requires ToutBlanc(b) && m != "" && SansBlanc(m) && (s == "" || EstBlanc(s[0]))
    ensures Champs(b + m + s) == [m] + Champs(s)
  {
    TrimGaucheBlancs(b, m + s);
    assert b + (m + s) == b + m + s;
    assert TrimGauche(m + s) == m + s;
    MotSuivi(m, s);
    assert (m + s)[|m|..] == s;
  }

  lemma ChampsVide(s: string)
    ensures Champs(s) == [] <==> ToutBlanc(s)
  {
    TrimToutBlanc(s);
    if ToutBlanc(s) {
      TrimGaucheBlancs(s, "");
      assert s + "" == s;
    } else {
      TrimGarde(s);
    }
  }

  /** A line that starts with its first word tells the first letter of it. */
  lemma ChampsInitiale(s: string)
    requires s != "" && !EstBlanc(s[0])
    ensures Champs(s) != [] && Champs(s)[0] == Mot(s) && Champs(s)[0][0] == s[0]
  {
  }

  lemma {:induction false} TrimDroiteChamps(s: string)
    ensures Champs(TrimDroite(s)) == Champs(s)
    decreases |s|
  {
    if s != "" && EstBlanc(s[|s| - 1]) {
      TrimDroiteChamps(s[..|s| - 1]);
      ChampsBlancFinal(s[..|s| - 1], s[|s| - 1]);
      assert s == s[..|s| - 1] + [s[|s| - 1]];
    }
  }

  lemma {:induction false} ChampsBlancFinal(s: string, c: char)
    requires EstBlanc(c)
    ensures Champs(s + [c]) == Champs(s)
    decreases |s|
  {
    if ToutBlanc(s) {
      ChampsVide(s);
      ChampsVide(s + [c]);
    } else {
      TrimGaucheSuite(s, c);
      var t := TrimGauche(s);
      var m := Mot(t);
      assert t != "" by { TrimGarde(s); }
      assert t == m + t[|m|..] && t + [c] == m + (t[|m|..] + [c]);
      MotSuivi(m, t[|m|..] + [c]);
      assert (t + [c])[|m|..] == t[|m|..] + [c];
      ChampsBlancFinal(t[|m|..], c);
    }
  }

  lemma {:induction false} TrimGaucheSuite(s: string, c: char)
    requires !ToutBlanc(s)
    ensures TrimGauche(s + [c]) == TrimGauche(s) + [c]
  {
    assert (s + [c])[0] == s[0];
    if EstBlanc(s[0]) {
      assert !ToutBlanc(s[1..]) by { assert s == [s[0]] + s[1..]; }
      TrimGaucheSuite(s[1..], c);
      assert (s + [c])[1..] == s[1..] + [c];
    }
  }

  /** One more word at the end of a line. */
  lemma {:induction false} ChampsAjout(s: string, m: string)
    requires m != "" && SansBlanc(m)
    ensures Champs(s + " " + m) == Champs(s) + [m]
    decreases |s|
  {
    hide Champs, EstBlanc, Mot, TrimGauche;
    var b := TrimGaucheDebut(s);
    if b == |s| {
      ChampsVide(s);
      BlancsPlus(s);
      assert s + " " + m == (s + " ") + m + "";
      ChampsMot(s + " ", m, "");
      ChampsVide("");
    } else {
      var t := s[b..];
      var w := PremierMot(t);
      var r := t[|w|..];
      assert s == s[..b] + w + r && s + " " + m == s[..b] + w + (r + " " + m);
      UnBlanc(r, m);
      ChampsMot(s[..b], w, r);
      ChampsMot(s[..b], w, r + " " + m);
      ChampsAjout(r, m);
      assert [w] + (Champs(r) + [m]) == [w] + Champs(r) + [m];
    }
  }

  lemma BlancsPlus(s: string)
    requires ToutBlanc(s)
    ensures ToutBlanc(s + " ")
  {
  }

  lemma UnBlanc(r: string, m: string)
    requires r == "" || EstBlanc(r[0])
    ensures r + " " + m != "" && EstBlanc((r + " " + m)[0])
  {
  }

  lemma PremierMot(t: string) returns (w: string)
    requires t != "" && !EstBlanc(t[0])
    ensures w != "" && SansBlanc(w) && w <= t && (|w| < |t| ==> EstBlanc(t[|w|]))
  {
    w := Mot(t);
  }

  /** Trimming a line changes none of its fields. */
  lemma ChampsTrim(s: string)
    ensures Champs(TrimSpace(s)) == Champs(s)
  {
    TrimDroiteChamps(TrimGauche(s));
    assert TrimGauche(TrimGauche(s)) == TrimGauche(s);
  }

  /** strings.HasPrefix */
  predicate Commence(s: string, p: string) { p <= s }

  /** `p` at position `i` of `s` */
  predicate SousMot(s: string, i: nat, p: string) { i + |p| <= |s| && s[i..i + |p|] == p }

  /** strings.Contains */
  predicate Contient(s: string, p: string) { exists i | 0 <= i <= |s| :: SousMot(s, i, p) }

  lemma ContientMilieu(a: string, p: string, b: string)
    ensures Contient(a + p + b, p)
  {
    assert SousMot(a + p + b, |a|, p);
  }

  /** strings.Index of one character, or -1 */
  function Indice(s: string, c: char): (i: int)
    ensures -1 <= i < |s| && (i >= 0 ==> s[i] == c)
    ensures forall k | 0 <= k < (if i < 0 then |s| else i) :: s[k] != c
  {
    if s == "" then -1
    else if s[0] == c then 0
    else
      var i := Indice(s[1..], c);
      if i < 0 then -1 else i + 1
  }

  // --- the marker -----------------------------------------------------------------

  // Long literals are written in pieces: the solver knows each character of a short literal, and only the length
  // of a long one.
  const PREFIXE_MARQUEUR := "# vaultaire-conf"
  const SUITE_MARQUE := " - tenu par " + "l'agent Vaultaire : " + "ne pas modifier a la main"
  const MARQUE_PAM := PREFIXE_MARQUEUR + " v1" + SUITE_MARQUE

  predicate EstMarqueur(l: string) { Commence(l, PREFIXE_MARQUEUR) }

  predicate EstLettreDeMot(c: char) { EstChiffre(c) || 'a' <= c <= 'z' || 'A' <= c <= 'Z' || c == '_' }

  /** One line read as a versioned marker: one to six digits, then the end of the word. */
  function VersionLigne(l: string): Entier {
    if !Commence(l, PREFIXE_MARQUEUR + " v") then Illisible
    else
      var s := l[|PREFIXE_MARQUEUR + " v"|..];
      var d := ChiffresEnTete(s);
      if 1 <= |d| <= 6 && (|d| == |s| || !EstLettreDeMot(s[|d|])) then Chiffres(d) else Illisible
  }

  function VersionLignes(l: seq<string>): int {
    if l == [] then 0
    else if VersionLigne(l[0]) != Illisible then VersionLigne(l[0]).n
    else VersionLignes(l[1..])
  }

  /** `LireVersion`: the version of the first marker, 0 without one. */
  function LireVersion(contenu: string): int { VersionLignes(Lignes(contenu)) }

  lemma {:induction false} VersionSansMarqueur(l: seq<string>, m: string, r: seq<string>)
    requires forall x | x in l :: VersionLigne(x) == Illisible
    requires VersionLigne(m) != Illisible
    ensures VersionLignes(l + [m] + r) == VersionLigne(m).n
  {
    var t := l + [m] + r;
    if l == [] {
      assert t[0] == m;
    } else {
      assert t[0] == l[0];
      assert t[1..] == l[1..] + [m] + r;
      VersionSansMarqueur(l[1..], m, r);
    }
  }

  /** A line that is no marker has no version. */
  lemma SansVersion(x: string)
    requires !EstMarqueur(x)
    ensures VersionLigne(x) == Illisible
  {
    assert PREFIXE_MARQUEUR <= PREFIXE_MARQUEUR + " v";
  }

  lemma SansVersions(l: seq<string>)
    requires forall x | x in l :: !EstMarqueur(x)
    ensures forall x | x in l :: VersionLigne(x) == Illisible
  {
    forall x | x in l ensures VersionLigne(x) == Illisible { SansVersion(x); }
  }

  /** A version is one to six digits, and then the end of a word. */
  lemma VersionDite(d: string, suite: string)
    requires d != "" && (forall i | 0 <= i < |d| :: EstChiffre(d[i])) && (suite == "" || !EstChiffre(suite[0]))
    ensures var l := "# vaultaire-conf v" + d + suite;
            if |d| <= 6 && (suite == "" || !EstLettreDeMot(suite[0])) then VersionLigne(l) == Chiffres(d)
            else VersionLigne(l) == Illisible
  {
    hide ChiffresEnTete, Chiffres, EstLettreDeMot;
    var p := "# vaultaire-conf v";
    var l := p + d + suite;
    assert PREFIXE_MARQUEUR + " v" == p;
    assert l == p + (d + suite);
    assert Commence(l, p) && l[|p|..] == d + suite;
    ChiffresSuivis(d, suite);
    assert d + suite != "" && (suite != "" ==> (d + suite)[|d|] == suite[0]);
  }

  lemma {:induction false} ChiffresSuivis(d: string, suite: string)
    requires (forall i | 0 <= i < |d| :: EstChiffre(d[i])) && (suite == "" || !EstChiffre(suite[0]))
    ensures ChiffresEnTete(d + suite) == d
  {
    if d == "" {
      assert d + suite == suite;
    } else {
      assert (d + suite)[0] == d[0] && (d + suite)[1..] == d[1..] + suite;
      ChiffresSuivis(d[1..], suite);
    }
  }

  lemma MarqueVersion()
    ensures EstMarqueur(MARQUE_PAM) && VersionLigne(MARQUE_PAM) == Lu(1)
  {
    assert SUITE_MARQUE[0] == ' ';
    VersionUn(SUITE_MARQUE);
  }

  lemma Initiale(p: string, l: string)
    requires p != "" && Commence(l, p)
    ensures l != "" && l[0] == p[0]
  {
  }

  /** A marker line of version 1, whatever comment follows. */
  lemma VersionUn(suite: string)
    requires suite != "" && !EstLettreDeMot(suite[0])
    ensures VersionLigne(PREFIXE_MARQUEUR + " v1" + suite) == Lu(1) && EstMarqueur(PREFIXE_MARQUEUR + " v1" + suite)
  {
    var p := PREFIXE_MARQUEUR + " v";
    var l := PREFIXE_MARQUEUR + " v1" + suite;
    assert l == p + ("1" + suite) && p <= l;
    assert l[|p|..] == "1" + suite;
    assert ("1" + suite)[1..] == suite;
    assert ChiffresEnTete("1" + suite) == "1";
    assert "1"[..0] == "";
    assert PREFIXE_MARQUEUR <= l;
  }
}
