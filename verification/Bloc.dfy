/** The block Vaultaire holds inside a file of the user, delimited by two marker lines
    (registry.go:84-134, verifiers_bloc.go:84-108). */
module Blocs {
  import opened Texte
  import opened ConfTextes

  // --- strings ----------------------------------------------------------------------------

  /** strings.Index, or -1 */
  function Position(s: string, p: string): (i: int)
    ensures i >= -1 && (i >= 0 ==> SousMot(s, i, p))
    ensures forall k: nat | i < 0 || k < i :: !SousMot(s, k, p)
  {
    if Commence(s, p) then 0
    else if s == "" then -1
    else
      var i := Position(s[1..], p);
      PositionSuite(s, p);
      if i < 0 then -1 else i + 1
  }

  lemma PositionSuite(s: string, p: string)
    requires s != ""
    ensures forall k: nat {:trigger SousMot(s, k, p)} | k > 0 :: SousMot(s, k, p) <==> SousMot(s[1..], k - 1, p)
  {
    var t := s[1..];
    forall k: nat {:trigger SousMot(s, k, p)} | k > 0 ensures SousMot(s, k, p) <==> SousMot(t, k - 1, p) {
      if k + |p| <= |s| {
        var u := s[k..k + |p|];
        forall j | 0 <= j < |p| ensures u[j] == t[k - 1..k - 1 + |p|][j] {}
        assert s[k..k + |p|] == t[k - 1..k - 1 + |p|];
      }
    }
  }

  lemma PositionUnique(s: string, p: string, i: nat)
    requires SousMot(s, i, p) && forall k: nat | k < i :: !SousMot(s, k, p)
    ensures Position(s, p) == i
  {
  }

  /** strings.TrimRight(s, "\n") */
  function SansFins(s: string): (r: string)
    ensures r <= s && (r == "" || r[|r| - 1] != '\n')
    ensures forall i | |r| <= i < |s| :: s[i] == '\n'
  {
    if s != "" && s[|s| - 1] == '\n' then SansFins(s[..|s| - 1]) else s
  }

  /** strings.TrimLeft(s, "\n") */
  function SansDebuts(s: string): (r: string)
    ensures |r| <= |s| && r == s[|s| - |r|..] && (r == "" || r[0] != '\n')
    ensures forall i | 0 <= i < |s| - |r| :: s[i] == '\n'
  {
    if s != "" && s[0] == '\n' then SansDebuts(s[1..]) else s
  }

  /** A mark without line break is found on one side of a line break or on the other. */
  lemma SousMotCoupe(a: string, b: string, p: string, k: nat)
    requires UneLigne(p) && p != ""
    ensures SousMot(a + "\n" + b, k, p) <==> SousMot(a, k, p) || (k > |a| && SousMot(b, k - |a| - 1, p))
  {
    var s := a + "\n" + b;
    if k + |p| <= |a| {
      assert s[k..k + |p|] == a[k..k + |p|];
    } else if k > |a| {
      if k + |p| <= |s| { assert s[k..k + |p|] == b[k - |a| - 1..k - |a| - 1 + |p|]; }
    } else if k + |p| <= |s| {
      assert s[k..k + |p|][|a| - k] == '\n';
    }
  }

  /** The first occurrence, past a text that has none. */
  lemma PositionCoupe(a: string, b: string, p: string)
    requires UneLigne(p) && p != "" && !Contient(a, p)
    ensures Position(a + "\n" + b, p) == if Position(b, p) < 0 then -1 else |a| + 1 + Position(b, p)
  {
    var s := a + "\n" + b;
    forall k: nat ensures SousMot(s, k, p) <==> k > |a| && SousMot(b, k - |a| - 1, p) {
      SousMotCoupe(a, b, p, k);
      assert k <= |a| && SousMot(a, k, p) ==> Contient(a, p);
    }
    if Position(b, p) >= 0 {
      var i := |a| + 1 + Position(b, p);
      forall k: nat | k < i ensures !SousMot(s, k, p) {
        if k > |a| { assert k - |a| - 1 < Position(b, p); }
      }
      PositionUnique(s, p, i);
    } else {
      forall k: nat ensures !SousMot(s, k, p) {
        if k > |a| { var j: nat := k - |a| - 1; assert !SousMot(b, j, p); }
      }
    }
  }

  // --- the managed block ------------------------------------------------------------------

  // Long literals in pieces, as in ConfTextes.
  const DEBUT := "# >>> vaultaire gpo " + "start <<<"
  const FIN := "# >>> vaultaire gpo " + "end <<<"
  const AVIS := "# Bloc gere par Vaultaire. " + "Toute modification " + "manuelle sera ecrasee."

  /** The body between the markers. */
  function Corps(contenu: string): string { AVIS + "\n" + SansFins(contenu) }

  /** `managedBlock` */
  function BlocGere(contenu: string): string {
    DEBUT + "\n" + AVIS + "\n" + SansFins(contenu) + "\n" + FIN + "\n"
  }

  /** What closes the text: the rest of the file after an empty line, if there is a rest. */
  function Fermeture(suite: string): string { if suite != "" then "\n" + suite else "" }

  function Encadrer(avant: string, contenu: string, suite: string): string {
    avant + BlocGere(contenu) + Fermeture(suite)
  }

  /** The rest of a text that starts at an opening mark: what follows the closing mark, or nothing if the
      block is never closed. */
  function ApresFin(t: string): string {
    var f := Position(t, FIN);
    if f < 0 then "" else SansDebuts(t[f + |FIN|..])
  }

  /** `replaceManagedBlock` */
  function RemplacerBloc(existant: string, contenu: string): string {
    var d := Position(existant, DEBUT);
    if d < 0 then
      if TrimSpace(existant) == "" then BlocGere(contenu)
      else SansFins(existant) + "\n\n" + BlocGere(contenu)
    else Encadrer(existant[..d], contenu, ApresFin(existant[d..]))
  }

  /** The text that stays before the block, and the text that stays after it. */
  function Avant(existant: string): string {
    var d := Position(existant, DEBUT);
    if d >= 0 then existant[..d]
    else if TrimSpace(existant) == "" then ""
    else SansFins(existant) + "\n\n"
  }

  function Apres(existant: string): string {
    var d := Position(existant, DEBUT);
    if d < 0 then "" else ApresFin(existant[d..])
  }

  lemma Encadrement(existant: string, contenu: string)
    ensures RemplacerBloc(existant, contenu) == Encadrer(Avant(existant), contenu, Apres(existant))
  {
    var r := BlocGere(contenu);
    assert Avant(existant) + r + "" == Avant(existant) + r;
    assert "" + r == r;
  }

  /** Where the block goes, on the text alone.  With an opening mark at `d`, everything before it is kept to the
      byte, the block follows, and of what stood after the closing mark only line breaks are lost; without a
      closing mark the rest is lost.  Without an opening mark, the whole text stays, less its last line breaks,
      unless it is blank. */
  lemma Place(existant: string, contenu: string) returns (j: nat)
    ensures var r, b, d := RemplacerBloc(existant, contenu), BlocGere(contenu), Position(existant, DEBUT);
            && (d >= 0 ==>
                  && existant[..d] + b <= r
                  && var t, reste := existant[d..], r[d + |b|..];
                     var f := Position(t, FIN);
                     && (f < 0 ==> reste == "")
                     && (f >= 0 ==>
                           && f + |FIN| <= j <= |t|
                           && (forall i | f + |FIN| <= i < j :: t[i] == '\n')
                           && (j < |t| ==> t[j] != '\n')
                           && reste == if j == |t| then "" else "\n" + t[j..]))
            && (d < 0 && TrimSpace(existant) != "" ==>
                  && j <= |existant| && r == existant[..j] + "\n\n" + b
                  && (forall i | j <= i < |existant| :: existant[i] == '\n')
                  && (j > 0 ==> existant[j - 1] != '\n'))
            && (d < 0 && TrimSpace(existant) == "" ==> r == b)
  {
    hide SansFins, TrimSpace, BlocGere, SousMot, Position, ApresFin;
    j := 0;
    if Position(existant, DEBUT) >= 0 {
      DansLeTexte(existant, Position(existant, DEBUT), DEBUT);
      j := ResteDuTexte(existant[Position(existant, DEBUT)..]);
    } else if TrimSpace(existant) != "" {
      j := |SansFins(existant)|;
      assert SansFins(existant) == existant[..j];
    }
  }

  /** What follows the closing mark, less the line breaks it starts with. */
  lemma ResteDuTexte(t: string) returns (j: nat)
    ensures var f := Position(t, FIN);
            && (f < 0 ==> ApresFin(t) == "")
            && (f >= 0 ==>
                  && f + |FIN| <= j <= |t|
                  && (forall i | f + |FIN| <= i < j :: t[i] == '\n')
                  && (j < |t| ==> t[j] != '\n')
                  && ApresFin(t) == t[j..])
  {
    hide SansDebuts, SousMot, Position;
    j := 0;
    var f := Position(t, FIN);
    if f >= 0 {
      DansLeTexte(t, f, FIN);
      var u := t[f + |FIN|..];
      var n := |u| - |SansDebuts(u)|;
      j := f + |FIN| + n;
      assert SansDebuts(u) == u[n..] == t[j..];
      forall i | f + |FIN| <= i < j ensures t[i] == '\n' { assert t[i] == u[i - f - |FIN|]; }
      if j < |t| { assert t[j] == SansDebuts(u)[0]; }
    }
  }

  lemma DansLeTexte(s: string, i: nat, p: string)
    requires SousMot(s, i, p)
    ensures i + |p| <= |s|
  {
  }

  lemma Balises()
    ensures UneLigne(DEBUT) && UneLigne(FIN) && UneLigne(AVIS)
    ensures !Contient(DEBUT, FIN) && !Contient(AVIS, FIN)
  {
    AvisSansFin();
    DebutSansFin();
  }

  lemma AvisSansFin()
    ensures !Contient(AVIS, FIN)
  {
    forall k | 1 <= k < |AVIS| ensures AVIS[k] != '#' {}
    assert AVIS[2] == 'B';
    forall i: nat | i <= |AVIS| ensures !SousMot(AVIS, i, FIN) { FinCommence(AVIS, i); }
  }

  lemma DebutSansFin()
    ensures !Contient(DEBUT, FIN)
  {
    assert DEBUT[1] == ' ' && DEBUT[2] == '>' && DEBUT[20] == 's';
    forall i: nat | i <= |DEBUT| ensures !SousMot(DEBUT, i, FIN) { FinCommence(DEBUT, i); }
  }

  /** How the closing mark starts, and its twenty-first character. */
  lemma FinCommence(s: string, i: nat)
    ensures SousMot(s, i, FIN) ==> s[i] == '#' && s[i + 2] == '>' && s[i + 20] == 'e'
  {
    assert FIN[0] == '#' && FIN[2] == '>' && FIN[20] == 'e';
    assert SousMot(s, i, FIN) ==> s[i..i + |FIN|][0] == '#' && s[i..i + |FIN|][2] == '>' && s[i..i + |FIN|][20] == 'e';
  }

  lemma BalisesNettes()
    ensures Nette(DEBUT) && Nette(FIN) && Nette(AVIS)
  {
  }

  // --- idempotence ----------------------------------------------------------------------

  /** No mark starts before the block. */
  lemma AvantSansDebut(existant: string, k: nat)
    requires k < |Avant(existant)|
    ensures !SousMot(Avant(existant) + DEBUT, k, DEBUT)
  {
    var a := Avant(existant);
    var d := Position(existant, DEBUT);
    if d >= 0 {
      assert existant[d..d + |DEBUT|] == DEBUT;
      assert a + DEBUT == existant[..d + |DEBUT|];
      assert (a + DEBUT)[k..k + |DEBUT|] == existant[k..k + |DEBUT|];
      assert !SousMot(existant, k, DEBUT);
    } else {
      SansDebutColle(existant, SansFins(existant), k);
    }
  }

  lemma SansDebutColle(existant: string, t: string, k: nat)
    requires t <= existant && k < |t| + 2 && forall i: nat :: !SousMot(existant, i, DEBUT)
    ensures !SousMot(t + "\n\n" + DEBUT, k, DEBUT)
  {
    Balises();
    var s := t + "\n\n" + DEBUT;
    if k + |DEBUT| <= |t| {
      assert s[k..k + |DEBUT|] == existant[k..k + |DEBUT|];
      assert !SousMot(existant, k, DEBUT);
    } else {
      var j := if k <= |t| then |t| else |t| + 1;
      assert s[j] == '\n' && s[k..k + |DEBUT|][j - k] == '\n';
    }
  }

  lemma PositionDebut(existant: string, suite: string)
    ensures Position(Avant(existant) + DEBUT + suite, DEBUT) == |Avant(existant)|
  {
    hide Avant;
    var a := Avant(existant);
    var s := a + DEBUT + suite;
    forall k: nat | k < |a| ensures !SousMot(s, k, DEBUT) {
      AvantSansDebut(existant, k);
      assert s[k..k + |DEBUT|] == (a + DEBUT)[k..k + |DEBUT|];
    }
    assert s[|a|..|a| + |DEBUT|] == DEBUT;
    PositionUnique(s, DEBUT, |a|);
  }

  /** The closing mark of a block: the one the block ends with, unless its body holds another. */
  lemma PositionFin(contenu: string, suite: string)
    ensures var f := Position(BlocGere(contenu) + suite, FIN);
            && f >= 0
            && (!Contient(SansFins(contenu), FIN) ==> f == |BlocGere(contenu)| - 1 - |FIN|)
            && (Contient(SansFins(contenu), FIN) ==> f + |FIN| < |BlocGere(contenu)| - 1 - |FIN|)
  {
    var c := SansFins(contenu);
    var z := FIN + ("\n" + suite);
    Balises();
    assert BlocGere(contenu) + suite == DEBUT + "\n" + (AVIS + "\n" + (c + "\n" + z));
    assert z[0..|FIN|] == FIN;
    PositionUnique(z, FIN, 0);
    PositionCoupe(DEBUT, AVIS + "\n" + (c + "\n" + z), FIN);
    PositionCoupe(AVIS, c + "\n" + z, FIN);
    if Contient(c, FIN) {
      var k :| 0 <= k <= |c| && SousMot(c, k, FIN);
      SousMotCoupe(c, z, FIN, k);
      assert SousMot(c + "\n" + z, k, FIN);
    } else {
      PositionCoupe(c, z, FIN);
    }
  }

  lemma SansDebutsFermeture(suite: string)
    requires suite == "" || suite[0] != '\n'
    ensures SansDebuts("\n" + Fermeture(suite)) == suite
  {
    var f := Fermeture(suite);
    assert ("\n" + f)[1..] == f;
    if suite != "" { assert f[1..] == suite; }
  }

  lemma ApresNette(existant: string)
    ensures Apres(existant) == "" || Apres(existant)[0] != '\n'
  {
  }

  /** What a second pass makes of the text a first pass left. */
  lemma SecondPassage(existant: string, contenu: string)
    ensures RemplacerBloc(RemplacerBloc(existant, contenu), contenu)
            == Encadrer(Avant(existant), contenu, ApresFin(BlocGere(contenu) + Fermeture(Apres(existant))))
  {
    hide *;
    PremierPassage(existant, contenu);
    var t := BlocGere(contenu) + Fermeture(Apres(existant));
    RemplacerDans(Avant(existant), t, RemplacerBloc(existant, contenu), contenu);
  }

  /** The mark that opens the block of a first pass is the first of its text. */
  lemma PremierPassage(existant: string, contenu: string)
    ensures var r := RemplacerBloc(existant, contenu);
            && r == Avant(existant) + (BlocGere(contenu) + Fermeture(Apres(existant)))
            && Position(r, DEBUT) == |Avant(existant)|
  {
    hide *;
    var a, b, z := Avant(existant), BlocGere(contenu), Fermeture(Apres(existant));
    Encadrement(existant, contenu);
    Encadre(a, contenu, Apres(existant));
    BlocCommence(contenu);
    Recoller(a, b, z, DEBUT);
    PositionDebut(existant, b[|DEBUT|..] + z);
  }

  lemma RemplacerDans(a: string, t: string, r: string, contenu: string)
    requires r == a + t && Position(r, DEBUT) == |a|
    ensures RemplacerBloc(r, contenu) == Encadrer(a, contenu, ApresFin(t))
  {
    hide Position, SousMot, BlocGere, SansFins, TrimSpace, Encadrer, ApresFin;
    assert r[..|a|] == a && r[|a|..] == t;
  }

  lemma Encadre(a: string, contenu: string, suite: string)
    ensures Encadrer(a, contenu, suite) == a + BlocGere(contenu) + Fermeture(suite)
  {
  }

  lemma BlocCommence(contenu: string)
    ensures DEBUT <= BlocGere(contenu)
  {
  }

  lemma Recoller(a: string, b: string, z: string, p: string)
    requires p <= b
    ensures a + b + z == a + p + (b[|p|..] + z) && a + b + z == a + (b + z)
  {
  }

  /** Replacing the block twice is replacing it once, exactly when the body does not hold the closing mark. */
  lemma Idempotent(existant: string, contenu: string)
    ensures var r := RemplacerBloc(existant, contenu);
            RemplacerBloc(r, contenu) == r <==> !Contient(SansFins(contenu), FIN)
  {
    hide *;
    var a, suite := Avant(existant), Apres(existant);
    var reste := ApresFin(BlocGere(contenu) + Fermeture(suite));
    Encadrement(existant, contenu);
    SecondPassage(existant, contenu);
    ApresNette(existant);
    if !Contient(SansFins(contenu), FIN) {
      ResteDernier(contenu, suite);
    } else {
      ResteNonVide(contenu, Fermeture(suite));
      FermeturePlusLongue(reste, Fermeture(suite));
      EncadrerTaille(a, contenu, reste, suite);
    }
  }

  lemma EncadrerTaille(a: string, contenu: string, x: string, y: string)
    requires |Fermeture(x)| > |Fermeture(y)|
    ensures Encadrer(a, contenu, x) != Encadrer(a, contenu, y)
  {
    hide Fermeture, BlocGere;
    var b := BlocGere(contenu);
    assert |a + b + Fermeture(x)| > |a + b + Fermeture(y)|;
  }

  lemma ResteDernier(contenu: string, suite: string)
    requires !Contient(SansFins(contenu), FIN) && (suite == "" || suite[0] != '\n')
    ensures ApresFin(BlocGere(contenu) + Fermeture(suite)) == suite
  {
    hide Contient, SousMot, Position, SansDebuts, SansFins;
    var b, z := BlocGere(contenu), Fermeture(suite);
    PositionFin(contenu, z);
    assert b[|b| - 1] == '\n';
    assert (b + z)[|b| - 1..] == "\n" + z;
    SansDebutsFermeture(suite);
  }

  lemma FermeturePlusLongue(suite: string, z: string)
    requires |suite| > |z|
    ensures |Fermeture(suite)| > |z|
  {
  }

  /** What follows an earlier closing mark still holds the last one. */
  lemma ResteNonVide(contenu: string, z: string)
    requires Contient(SansFins(contenu), FIN)
    ensures |ApresFin(BlocGere(contenu) + z)| > |z|
  {
    hide SansDebuts, SansFins, Contient, Position, SousMot;
    PositionFin(contenu, z);
    var b := BlocGere(contenu);
    var f := Position(b + z, FIN);
    var reste := (b + z)[f + |FIN|..];
    var i := |b| - 1 - |FIN| - (f + |FIN|);
    assert b == DEBUT + "\n" + AVIS + "\n" + SansFins(contenu) + "\n" + (FIN + "\n");
    assert b[|b| - 1 - |FIN|] == (FIN + "\n")[0] == '#';
    assert reste[i] == b[|b| - 1 - |FIN|];
  }

  /** One body, that holds the closing mark: a second pass adds what follows it once more. */
  lemma NonIdempotentExemple()
    ensures RemplacerBloc(RemplacerBloc("", FIN), FIN) != RemplacerBloc("", FIN)
  {
    Balises();
    assert FIN[|FIN| - 1] == '<';
    assert FIN[0..|FIN|] == FIN && SousMot(FIN, 0, FIN);
    assert SansFins(FIN) == FIN;
    Idempotent("", FIN);
  }
}
