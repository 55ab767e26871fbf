/** Branching nsswitch.conf (`brancherNSS`, transformations.go:139-177). */
module NSS {
  import opened Texte
  import opened ConfTextes

  const BASES := ["passwd", "group"]
  const AJOUT := " vaultaire"
  const NOM := "vaultaire"

  /** A line of this database. */
  predicate DeLaBase(x: string, base: string) { Commence(x, base + ":") }

  /** `\bvaultaire\b` at position `i` */
  predicate NommeEn(x: string, i: nat) {
    && SousMot(x, i, NOM)
    && (i == 0 || !EstLettreDeMot(x[i - 1]))
    && (i + |NOM| == |x| || !EstLettreDeMot(x[i + |NOM|]))
  }

  /** `^<base>:.*\bvaultaire\b` */
  predicate Deja(x: string, base: string) {
    DeLaBase(x, base) && exists i | |base| + 1 <= i <= |x| :: NommeEn(x, i)
  }

  predicate Presente(l: seq<string>, base: string) { exists i | 0 <= i < |l| :: DeLaBase(l[i], base) }
  predicate Branchee(l: seq<string>, base: string) { exists i | 0 <= i < |l| :: Deja(l[i], base) }

  /** One database: nothing if one of its lines names Vaultaire, and otherwise every one of its lines does. */
  function Ajouter(l: seq<string>, base: string): (r: seq<string>)
    ensures |r| == |l|
  {
    if Branchee(l, base) then l
    else seq(|l|, i requires 0 <= i < |l| => if DeLaBase(l[i], base) then l[i] + AJOUT else l[i])
  }

  function Voulues(l: seq<string>): seq<string> {
    [MARQUE_PAM] + Garder(Ajouter(Ajouter(l, BASES[0]), BASES[1]), EstMarqueur)
  }

  /** The new file, or the refusal of a file that lacks one of the two databases. */
  function NSSVoulu(contenu: string): Resultat<string> {
    var l := Lignes(contenu);
    if Presente(l, BASES[0]) && Presente(l, BASES[1]) then Ok(Joindre(Voulues(l))) else NSSIncomplet
  }

  /** One turn of the loop over the databases. */
  method BrancherBase(l: seq<string>, base: string) returns (present: bool, r: seq<string>)
    ensures present <==> Presente(l, base)
    ensures present ==> r == Ajouter(l, base)
  {
    hide DeLaBase, Deja;
    var branche := false;
    present := false;
    for i := 0 to |l|
      invariant present <==> exists k | 0 <= k < i :: DeLaBase(l[k], base)
      invariant branche <==> exists k | 0 <= k < i :: Deja(l[k], base)
    {
      if DeLaBase(l[i], base) { present := true; }
      if Deja(l[i], base) { branche := true; }
    }
    r := l;
    if !present || branche { return; }
    for i := 0 to |l|
      invariant |r| == |l|
      invariant forall k | 0 <= k < i :: r[k] == if DeLaBase(l[k], base) then l[k] + AJOUT else l[k]
      invariant forall k | i <= k < |l| :: r[k] == l[k]
    {
      if DeLaBase(l[i], base) { r := r[i := l[i] + AJOUT]; }
    }
  }

  method BrancherNSS(contenu: string) returns (r: Resultat<string>)
    ensures r == NSSVoulu(contenu)
  {
    hide DeLaBase, Deja, Ajouter, EstMarqueur, Joindre, Lignes;
    var l := Lignes(contenu);
    ghost var depart := l;
    for b := 0 to |BASES|
      invariant b == 0 ==> l == depart
      invariant b == 1 ==> Presente(depart, BASES[0]) && l == Ajouter(depart, BASES[0])
      invariant b == 2 ==> Presente(depart, BASES[0]) && Presente(depart, BASES[1])
                           && l == Ajouter(Ajouter(depart, BASES[0]), BASES[1])
    {
      var present: bool;
      ghost var avant := l;
      present, l := BrancherBase(l, BASES[b]);
      if b == 1 { AutreBaseIntacte(depart, BASES[0], BASES[1]); }
      if !present { return NSSIncomplet; }
    }
    var out := [MARQUE_PAM];
    for i := 0 to |l|
      invariant out == [MARQUE_PAM] + Garder(l[..i], EstMarqueur)
    {
      assert l[..i + 1][..i] == l[..i];
      if !EstMarqueur(l[i]) { out := out + [l[i]]; }
    }
    assert l[..|l|] == l;
    return Ok(Joindre(out));
  }

  // --- what it keeps and what it guarantees -----------------------------------------

  lemma BasesDistinctes(x: string)
    ensures !(DeLaBase(x, BASES[0]) && DeLaBase(x, BASES[1]))
  {
    assert DeLaBase(x, BASES[0]) ==> x[0] == 'p';
    assert DeLaBase(x, BASES[1]) ==> x[0] == 'g';
  }

  lemma AjoutGarde(x: string, base: string)
    requires DeLaBase(x, base)
    ensures DeLaBase(x + AJOUT, base) && Deja(x + AJOUT, base)
  {
    var y := x + AJOUT;
    assert AJOUT == " " + NOM && y[|x|] == ' ';
    assert y[|x| + 1..|x| + 1 + |NOM|] == NOM;
    assert NommeEn(y, |x| + 1);
  }

  /** Handling one database leaves the lines of the other as they were. */
  lemma AutreBaseIntacte(l: seq<string>, base: string, autre: string)
    requires (base, autre) in {(BASES[0], BASES[1]), (BASES[1], BASES[0])}
    ensures Presente(Ajouter(l, base), autre) <==> Presente(l, autre)
    ensures Branchee(Ajouter(l, base), autre) <==> Branchee(l, autre)
  {
    var r := Ajouter(l, base);
    forall i | 0 <= i < |l|
      ensures DeLaBase(r[i], autre) <==> DeLaBase(l[i], autre)
      ensures Deja(r[i], autre) <==> Deja(l[i], autre)
    {
      BasesDistinctes(l[i]);
      if r[i] != l[i] {
        AjoutGarde(l[i], base);
        BasesDistinctes(r[i]);
      }
    }
  }

  /** After its turn every database has a line that names Vaultaire. */
  lemma BaseBranchee(l: seq<string>, base: string)
    requires Presente(l, base)
    ensures Branchee(Ajouter(l, base), base)
  {
    hide DeLaBase, Deja;
    var r := Ajouter(l, base);
    if !Branchee(l, base) {
      var i :| 0 <= i < |l| && DeLaBase(l[i], base);
      AjoutGarde(l[i], base);
      assert Deja(r[i], base);
    }
  }

  /** The lines of the new file, its marker apart. */
  function Corps(l: seq<string>): (m: seq<string>)
    ensures |m| == |l|
  {
    Ajouter(Ajouter(l, BASES[0]), BASES[1])
  }

  /** Any line comes out as it was, or, in a database that no line named Vaultaire in, with the name added. */
  lemma SeulsAjouts(l: seq<string>, i: nat)
    requires i < |l|
    ensures Corps(l)[i] == l[i] + AJOUT <==> exists b | 0 <= b < |BASES| ::
        DeLaBase(l[i], BASES[b]) && !Branchee(l, BASES[b])
    ensures Corps(l)[i] == l[i] || Corps(l)[i] == l[i] + AJOUT
  {
    hide DeLaBase, Branchee;
    var x := l[i];
    var m := Ajouter(l, BASES[0]);
    BasesDistinctes(x);
    AutreBaseIntacte(l, BASES[0], BASES[1]);
    if m[i] != x {
      AjoutGarde(x, BASES[0]);
      BasesDistinctes(m[i]);
    }
    assert |x + AJOUT| > |x|;
  }

  lemma CorpsBranche(l: seq<string>)
    requires Presente(l, BASES[0]) && Presente(l, BASES[1])
    ensures forall b | 0 <= b < |BASES| :: Presente(Corps(l), BASES[b]) && Branchee(Corps(l), BASES[b])
  {
    hide Presente, Branchee, Ajouter;
    var m := Ajouter(l, BASES[0]);
    AutreBaseIntacte(l, BASES[0], BASES[1]);
    BaseBranchee(l, BASES[0]);
    BasePresente(l, BASES[0]);
    AutreBaseIntacte(m, BASES[1], BASES[0]);
    BaseBranchee(m, BASES[1]);
    BasePresente(m, BASES[1]);
  }

  lemma BasePresente(l: seq<string>, base: string)
    requires Presente(l, base)
    ensures Presente(Ajouter(l, base), base)
  {
    hide DeLaBase, Deja;
    var i :| 0 <= i < |l| && DeLaBase(l[i], base);
    AjoutGarde(l[i], base);
    assert DeLaBase(Ajouter(l, base)[i], base);
  }

  /** Taking the markers away and putting one at the head changes no database. */
  lemma MarqueurHorsBases(m: seq<string>, base: string)
    requires base in BASES && Presente(m, base) && Branchee(m, base)
    ensures var r := [MARQUE_PAM] + Garder(m, EstMarqueur); Presente(r, base) && Branchee(r, base)
  {
    hide Deja, NommeEn, Garder;
    var r := [MARQUE_PAM] + Garder(m, EstMarqueur);
    var i :| 0 <= i < |m| && Deja(m[i], base);
    DejaDeLaBase(m[i], base);
    MarqueurAutre(m[i], base);
    GarderContient(m, EstMarqueur, i);
    assert m[i] in r;
    var k :| 0 <= k < |r| && r[k] == m[i];
    assert DeLaBase(r[k], base) && Deja(r[k], base);
  }

  lemma DejaDeLaBase(x: string, base: string)
    requires Deja(x, base)
    ensures DeLaBase(x, base)
  {
  }

  lemma MarqueurAutre(x: string, base: string)
    requires base in BASES && DeLaBase(x, base)
    ensures !EstMarqueur(x)
  {
    assert PREFIXE_MARQUEUR[0] == '#' && base[0] in {'p', 'g'};
  }

  lemma {:induction false} GarderContient(l: seq<string>, rejet: string -> bool, i: nat)
    requires i < |l| && !rejet(l[i])
    ensures l[i] in Garder(l, rejet)
  {
    if i < |l| - 1 { GarderContient(l[..|l| - 1], rejet, i); }
  }

  lemma AjouterUneLigne(l: seq<string>, base: string)
    requires DesLignes(l)
    ensures DesLignes(Ajouter(l, base))
  {
    assert UneLigne(AJOUT);
  }

  /** Branching a branched file changes nothing; both databases name Vaultaire; the lines are those of the
      administrator with the additions, under one marker, of the version of the rule. */
  lemma NSSIdempotent(contenu: string)
    requires NSSVoulu(contenu).Ok?
    ensures var v := NSSVoulu(contenu).value;
            && NSSVoulu(v) == Ok(v) && LireVersion(v) == 1
            && Lignes(v) == [MARQUE_PAM] + Garder(Corps(Lignes(contenu)), EstMarqueur)
            && forall b | 0 <= b < |BASES| :: Branchee(Lignes(v), BASES[b])
  {
    hide Presente, Branchee, Ajouter, EstMarqueur, Joindre, Lignes, Garder, VersionLigne;
    var l := Lignes(contenu);
    var m := Corps(l);
    var r := Voulues(l);
    JoindreLignes(contenu);
    AjouterUneLigne(l, BASES[0]);
    AjouterUneLigne(Ajouter(l, BASES[0]), BASES[1]);
    MarqueVersion();
    assert UneLigne(MARQUE_PAM);
    DesLignesVoulues(m);
    LignesJoindre(r);
    CorpsBranche(l);
    MarqueurHorsBases(m, BASES[0]);
    MarqueurHorsBases(m, BASES[1]);
    DejaBranchee(r);
    GarderConcat([MARQUE_PAM], Garder(m, EstMarqueur), EstMarqueur);
    GarderRien([MARQUE_PAM], EstMarqueur);
    GarderTout(Garder(m, EstMarqueur), EstMarqueur);
    assert [] + Garder(m, EstMarqueur) == Garder(m, EstMarqueur);
    assert Voulues(r) == r;
    assert r == [] + [MARQUE_PAM] + Garder(m, EstMarqueur);
    VersionSansMarqueur([], MARQUE_PAM, Garder(m, EstMarqueur));
  }

  lemma DesLignesVoulues(m: seq<string>)
    requires DesLignes(m) && UneLigne(MARQUE_PAM)
    ensures DesLignes([MARQUE_PAM] + Garder(m, EstMarqueur))
  {
    forall x | x in Garder(m, EstMarqueur) ensures UneLigne(x) { assert x in m; }
  }

  lemma DejaBranchee(r: seq<string>)
    requires Branchee(r, BASES[0]) && Branchee(r, BASES[1])
    ensures Corps(r) == r
  {
  }

  // --- what glibc reads -------------------------------------------------------------------

  /** The services of a line, as glibc reads them: the words after the colon, up to a number sign. */
  function Services(x: string, base: string): seq<string>
    requires DeLaBase(x, base)
  {
    var r := x[|base| + 1..];
    Champs(if Indice(r, '#') >= 0 then r[..Indice(r, '#')] else r)
  }

  lemma ServicesAjout(x: string, base: string)
    requires base in BASES && DeLaBase(x, base)
    ensures DeLaBase(x + AJOUT, base)
    ensures Services(x + AJOUT, base) == if '#' in x then Services(x, base) else Services(x, base) + [NOM]
  {
    hide Champs, Deja, SansBlanc;
    AjoutGarde(x, base);
    BaseSansDiese(x, base);
    var r := x[|base| + 1..];
    assert (x + AJOUT)[|base| + 1..] == r + AJOUT == r + " " + NOM;
    hide DeLaBase;
    if '#' in x {
      IndiceDebut(r, AJOUT);
      assert (r + AJOUT)[..Indice(r, '#')] == r[..Indice(r, '#')];
    } else {
      NomPropre();
      assert Indice(r, '#') < 0 && Indice(r + AJOUT, '#') < 0;
      ChampsAjout(r, NOM);
    }
  }

  lemma NomPropre()
    ensures '#' !in AJOUT && SansBlanc(NOM)
  {
  }

  lemma IndiceDebut(r: string, s: string)
    requires '#' in r
    ensures Indice(r, '#') >= 0 && Indice(r + s, '#') == Indice(r, '#')
  {
    var i := Indice(r, '#');
    var j := Indice(r + s, '#');
    assert forall k | 0 <= k < |r| :: (r + s)[k] == r[k];
  }

  /** The name of a database holds no number sign. */
  lemma BaseSansDiese(x: string, base: string)
    requires base in BASES && DeLaBase(x, base)
    ensures '#' in x <==> '#' in x[|base| + 1..]
  {
    assert x == base + ":" + x[|base| + 1..];
    assert '#' !in base && '#' !in ":";
  }

  /** Some line of this database lists the service. */
  ghost predicate Servie(l: seq<string>, base: string) {
    exists i | 0 <= i < |l| :: DeLaBase(l[i], base) && NOM in Services(l[i], base)
  }

  /** Whether glibc will ask Vaultaire: exactly if some line of the database already listed it, or none held its name
      as a word and some line has no comment, which would swallow the addition. */
  lemma ServieSsi(l: seq<string>, base: string)
    requires base in BASES
    ensures Servie(Corps(l), base) <==>
            exists i | 0 <= i < |l| ::
              DeLaBase(l[i], base) && (NOM in Services(l[i], base) || (!Branchee(l, base) && '#' !in l[i]))
  {
    hide Services, DeLaBase, Branchee;
    var c := Corps(l);
    forall i | 0 <= i < |l|
      ensures DeLaBase(c[i], base) <==> DeLaBase(l[i], base)
      ensures DeLaBase(l[i], base) ==>
                (NOM in Services(c[i], base) <==>
                 NOM in Services(l[i], base) || (!Branchee(l, base) && '#' !in l[i]))
    {
      LigneServie(l, base, i);
    }
  }

  lemma LigneServie(l: seq<string>, base: string, i: nat)
    requires base in BASES && i < |l|
    ensures DeLaBase(Corps(l)[i], base) <==> DeLaBase(l[i], base)
    ensures DeLaBase(l[i], base) ==>
              (NOM in Services(Corps(l)[i], base) <==>
               NOM in Services(l[i], base) || (!Branchee(l, base) && '#' !in l[i]))
  {
    hide Services, DeLaBase, Branchee;
    SeulsAjouts(l, i);
    BasesDistinctes(l[i]);
    var b := if base == BASES[0] then 0 else 1;
    if DeLaBase(l[i], base) {
      ServicesAjout(l[i], base);
      assert Corps(l)[i] == l[i] + AJOUT <==> !Branchee(l, base);
    } else if Corps(l)[i] != l[i] {
      var autre := BASES[1 - b];
      AjoutGarde(l[i], autre);
      BasesDistinctes(Corps(l)[i]);
    }
  }

  /** A file in which the group is branched and glibc never asks: the name stands in a comment. */
  lemma CommenteExemple()
    ensures Presente(["passwd: x", "group: x #"], BASES[0]) && Presente(["passwd: x", "group: x #"], BASES[1])
    ensures Servie(Corps(["passwd: x", "group: x #"]), BASES[0])
    ensures !Servie(Corps(["passwd: x", "group: x #"]), BASES[1])
  {
    hide Services, Deja, Corps;
    var l := ["passwd: x", "group: x #"];
    Exemple();
    assert DeLaBase(l[0], BASES[0]) && DeLaBase(l[1], BASES[1]);
    BasesDistinctes(l[0]);
    BasesDistinctes(l[1]);
    ServieSsi(l, BASES[0]);
    ServieSsi(l, BASES[1]);
  }

  lemma Exemple()
    ensures DeLaBase("passwd: x", "passwd") && DeLaBase("group: x #", "group")
    ensures NOM !in Services("group: x #", "group") && '#' in "group: x #" && '#' !in "passwd: x"
    ensures forall i | 0 <= i < 2 :: !Deja(["passwd: x", "group: x #"][i], BASES[0])
  {
    assert "group: x #"[6..] == " x #";
    assert Indice(" x #", '#') == 3 && " x #"[..3] == " x ";
    assert !EstBlanc('x');
    assert " x " == " " + "x" + " ";
    ChampsMot(" ", "x", " ");
    ChampsVide(" ");
    assert |NOM| == 9;
  }

  /** With plain words, the name is found exactly when the service is listed. */
  lemma DejaSsi(x: string, base: string)
    requires base in BASES && DeLaBase(x, base) && '#' !in x
    requires forall m | m in Services(x, base) :: forall c | c in m :: EstLettreDeMot(c)
    ensures Deja(x, base) <==> NOM in Services(x, base)
  {
    hide Champs, NommeEn;
    var n := |base| + 1;
    var r := x[n..];
    BaseSansDiese(x, base);
    assert Indice(r, '#') < 0 && Services(x, base) == Champs(r);
    MotEntier(r);
    forall i: nat | i <= |r| ensures NommeEn(r, i) <==> NommeEn(x, n + i) { NommeDecale(x, n, i); }
    if Deja(x, base) {
      var i :| n <= i <= |x| && NommeEn(x, i);
      assert NommeEn(r, i - n);
    }
  }

  lemma NommeDecale(x: string, n: nat, i: nat)
    requires 0 < n <= |x| && x[n - 1] == ':' && i <= |x| - n
    ensures NommeEn(x[n..], i) <==> NommeEn(x, n + i)
  {
    var r := x[n..];
    assert i + |NOM| <= |r| ==> r[i..i + |NOM|] == x[n + i..n + i + |NOM|];
  }

  lemma {:induction false} MotEntier(s: string)
    requires forall m | m in Champs(s) :: forall c | c in m :: EstLettreDeMot(c)
    ensures (exists i | 0 <= i <= |s| :: NommeEn(s, i)) <==> NOM in Champs(s)
    decreases |s|
  {
    hide EstLettreDeMot, EstBlanc, NommeEn;
    var b := TrimGaucheDebut(s);
    var t := s[b..];
    if t != "" {
      var w := Mot(t);
      var r := t[|w|..];
      assert Champs(s) == [w] + Champs(r);
      assert w in Champs(s) && forall m | m in Champs(r) :: m in Champs(s);
      MotEntier(r);
      var n := b + |w|;
      assert r == s[n..];
      forall i | 0 <= i <= |s| ensures NommeEn(s, i) <==> (i == b && w == NOM) || (i > n && NommeEn(r, i - n)) {
        UnePlace(s, b, w, i);
      }
      if NOM in Champs(r) {
        var k :| 0 <= k <= |r| && NommeEn(r, k);
        PasEnTete(r, k);
        assert NommeEn(s, n + k);
      }
      if w == NOM { assert NommeEn(s, b); }
    } else {
      forall i | 0 <= i <= |s| ensures !NommeEn(s, i) {
        LettresDuNom(s, i);
        assert i < |s| ==> EstBlanc(s[i]);
      }
    }
  }

  lemma PasEnTete(r: string, k: nat)
    requires NommeEn(r, k) && (r == "" || EstBlanc(r[0]))
    ensures k > 0
  {
    LettresDuNom(r, k);
  }

  lemma LettresDuNom(s: string, i: nat)
    ensures NommeEn(s, i) ==> i + 9 <= |s| && s[i..i + 9] == NOM
                              && forall k | i <= k < i + 9 :: EstLettreDeMot(s[k]) && !EstBlanc(s[k])
  {
    if NommeEn(s, i) {
      var m := s[i..i + 9];
      assert m == NOM && forall k | 0 <= k < 9 :: s[i + k] == m[k];
      assert forall k | i <= k < i + 9 :: s[k] == NOM[k - i];
    }
  }

  /** Blanks up to `b`, a word of letters, and then a blank or the end: where the name can start. */
  lemma UnePlace(s: string, b: nat, w: string, i: nat)
    requires b + |w| <= |s| && s[b..b + |w|] == w && w != "" && i <= |s|
    requires (forall k | 0 <= k < b :: EstBlanc(s[k])) && forall c | c in w :: EstLettreDeMot(c) && !EstBlanc(c)
    requires b + |w| < |s| ==> EstBlanc(s[b + |w|])
    ensures NommeEn(s, i) <==> (i == b && w == NOM) || (i > b + |w| && NommeEn(s[b + |w|..], i - b - |w|))
  {
    var n := b + |w|;
    LettresDuNom(s, i);
    assert forall k | b <= k < n :: s[k] == w[k - b];
    BlancPasLettre();
    if i > n {
      assert i + 9 <= |s| ==> s[n..][i - n..i - n + 9] == s[i..i + 9];
    } else if NommeEn(s, i) {
      assert !EstBlanc(s[i]);
      assert i == b;
      assert n == b + 9;
    }
  }

  lemma BlancPasLettre()
    ensures forall c | EstBlanc(c) :: !EstLettreDeMot(c)
  {
  }
}
