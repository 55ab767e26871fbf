/** What rewriting sshd_config keeps, and what the result means to sshd. */
module SSHDSens {
  import opened Options
  import opened Texte
  import opened ConfTextes
  import opened SSHD

  // --- conservation and idempotence -------------------------------------------------

  lemma DesLignesReecrite(contenu: string)
    ensures DesLignes(Reecrite(contenu))
  {
    hide Retiree, LigneMatch, Lignes;
    JoindreLignes(contenu);
    forall k | 0 <= k < |BLOC| ensures UneLigne(BLOC[k]) { BlocRetire(k); }
    assert DesLignes(Survivantes(contenu)) by {
      forall x | x in Survivantes(contenu) ensures UneLigne(x) { assert x in Lignes(contenu); }
    }
  }

  /** Every line that holds nothing of the block comes out unchanged and in order. */
  lemma LignesConservees(contenu: string)
    ensures Garder(Reecrite(contenu), Retiree) == Survivantes(contenu)
  {
    hide Retiree, LigneMatch, Lignes;
    forall x | x in BLOC ensures Retiree(x) {
      var k :| 0 <= k < |BLOC| && BLOC[k] == x;
      BlocRetire(k);
    }
    GarderInsertion(Survivantes(contenu), Place(contenu), BLOC, Retiree);
  }

  /** Nothing is taken away but markers and what the block sets again. */
  lemma RienDePlus(l: string)
    ensures Retiree(l) ==>
              "# vaultaire-conf" <= l || "Include" <= l || exists k | 0 <= k < |TENUES| :: TENUES[k].0 <= l
  {
    if Tenue(l) {
      var d :| 0 <= d < |DIRECTIVES| && Commence(l, DIRECTIVES[d]);
      assert d != 5 ==> exists k | 0 <= k < |TENUES| :: RANG[k] == d by {
        assert RANG[0] == 0 && RANG[1] == 4 && RANG[2] == 1 && RANG[3] == 2 && RANG[4] == 3 && RANG[5] == 6
            && RANG[6] == 7;
      }
      if d != 5 {
        var k :| 0 <= k < |TENUES| && RANG[k] == d;
        assert TENUES[k].0 == DIRECTIVES[d];
      }
    }
  }

  lemma GarderInsertion(l: seq<string>, i: nat, m: seq<string>, rejet: string -> bool)
    requires i <= |l| && (forall x | x in l :: !rejet(x)) && forall x | x in m :: rejet(x)
    ensures Garder(l[..i] + m + l[i..], rejet) == l
  {
    hide Garder;
    var a, b := l[..i], l[i..];
    assert l == a + b;
    GarderRien(m, rejet);
    GarderTout(a, rejet);
    GarderTout(b, rejet);
    GarderConcat(a, m, rejet);
    GarderConcat(a + m, b, rejet);
    assert a + [] == a;
  }

  /** Rewriting a rewritten file changes nothing, and its version is that of the rule. */
  lemma ReecrireIdempotente(contenu: string)
    ensures var v := Joindre(Reecrite(contenu));
            Lignes(v) == Reecrite(contenu) && Joindre(Reecrite(v)) == v && LireVersion(v) == 1
  {
    hide Retiree, LigneMatch, Joindre, VersionLigne;
    var v := Joindre(Reecrite(contenu));
    DesLignesReecrite(contenu);
    LignesJoindre(Reecrite(contenu));
    LignesConservees(contenu);
    assert Survivantes(v) == Survivantes(contenu);
    VersionReecrite(contenu);
  }

  lemma VersionReecrite(contenu: string)
    ensures VersionLignes(Reecrite(contenu)) == 1
  {
    hide LigneMatch, VersionLigne, VersionLignes, Tenue, EstMarqueur;
    var l := Survivantes(contenu);
    var i := Place(contenu);
    VersionUn(" - debut du bloc " + "Vaultaire : " + "ne pas modifier a la main");
    forall x | x in l[..i] ensures !EstMarqueur(x) { assert x in l; }
    assert Reecrite(contenu) == l[..i] + [DEBUT] + (BLOC[1..] + l[i..]);
    SansVersions(l[..i]);
    VersionSansMarqueur(l[..i], DEBUT, BLOC[1..] + l[i..]);
  }

  // --- the first value read wins --------------------------------------------------------

  /** A line as sshd reads it: its keyword, under the one name sshd knows it by, and what follows. */
  datatype Lecture = Rien | Directive(mot: string, valeur: string)

  /** Since version 8.7 of OpenSSH, ChallengeResponseAuthentication is another name of
      KbdInteractiveAuthentication. */
  datatype OpenSSH = Avant87 | Depuis87

  const KBD := "kbdinteractive" + "authentication"
  const CRA := "challengeresponse" + "authentication"

  /** The other names of sshd's table of keywords. */
  function Nom(o: OpenSSH, mot: string): string {
    if mot == "dsaauthentication" then "pubkeyauthentication"
    else if mot == "skeyauthentication" || mot == CRA then (if o == Depuis87 then KBD else CRA)
    else mot
  }

  predicate Separe(c: char) { Espace(c) || c == '=' }

  predicate Arret(c: char) { Separe(c) || c == '"' }

  /** The characters before a blank, an equals sign or a quotation mark. */
  function MotNu(s: string): (m: string)
    ensures m <= s
  {
    if s == "" || Arret(s[0]) then "" else [s[0]] + MotNu(s[1..])
  }

  /** The place of the first quotation mark, or the end. */
  function Guillemet(s: string): (n: nat)
    ensures n <= |s| && (n < |s| ==> s[n] == '"') && forall i | 0 <= i < n :: s[i] != '"'
  {
    if s == "" || s[0] == '"' then 0 else 1 + Guillemet(s[1..])
  }

  datatype Decoupe = SansFermeture | Mot(mot: string, reste: string)

  /** The first word, the part of it between quotation marks included, and what follows the blanks and the one
      equals sign after it; a quotation mark never closed leaves no word. */
  function Couper(s: string): Decoupe {
    var n := |MotNu(s)|;
    if n < |s| && s[n] == '"' then
      var t := s[n + 1..];
      var q := Guillemet(t);
      if q == |t| then SansFermeture else Mot(s[..n] + t[..q], SansEspace(t[q + 1..]))
    else Mot(s[..n], SansEgal(SansEspace(s[n..])))
  }

  function SansEgal(r: string): string { if Commence(r, "=") then SansEspace(r[1..]) else r }

  /** The keyword of a line; an empty first word is passed over once. */
  function Tete(l: string): Decoupe {
    var c := Couper(SansEspace(l));
    if c.Mot? && c.mot == "" then Couper(c.reste) else c
  }

  function LireDirective(o: OpenSSH, l: string): Lecture {
    var c := Tete(l);
    if c.SansFermeture? || c.mot == "" || c.mot[0] == '#' then Rien
    else Directive(Nom(o, Minuscules(c.mot)), TrimDroite(c.reste))
  }

  /** What the included files set: for a pattern and a keyword, the value they give, if any. */
  type Inclus = map<(string, string), string>

  /** The value of a keyword outside every Match section. */
  function Valeur(o: OpenSSH, l: seq<string>, inclus: Inclus, mot: string): Option<string> {
    if l == [] then None
    else
      match LireDirective(o, l[0])
      case Rien => Valeur(o, l[1..], inclus, mot)
      case Directive(m, v) =>
        if m == "match" then None
        else if m == mot then Some(v)
        else if m == "include" && (v, mot) in inclus then Some(inclus[(v, mot)])
        else Valeur(o, l[1..], inclus, mot)
  }

  /** The first line that can decide the keyword. */
  function Influence(o: OpenSSH, l: seq<string>, mot: string): Lecture {
    if l == [] then Rien
    else
      var d := LireDirective(o, l[0]);
      if d.Directive? && d.mot in {"match", mot, "include"} then d else Influence(o, l[1..], mot)
  }

  function Tenu(o: OpenSSH, k: nat): string
    requires k < |TENUES|
  {
    Nom(o, Minuscules(TENUES[k].0))
  }

  // --- the block, read --------------------------------------------------------------

  predicate SansSeparateur(s: string) { forall i | 0 <= i < |s| :: !Arret(s[i]) }

  lemma {:induction false} MotNuJusque(s: string, n: nat)
    requires n <= |s| && SansSeparateur(s[..n]) && (n == |s| || Arret(s[n]))
    ensures MotNu(s) == s[..n]
  {
    if n > 0 {
      assert s[1..][..n - 1] == s[..n][1..] && !Arret(s[..n][0]);
      MotNuJusque(s[1..], n - 1);
    }
  }

  lemma LireTenue(o: OpenSSH, m: string, v: string)
    requires m != "" && SansSeparateur(m) && m[0] != '#'
    requires v != "" && !Separe(v[0]) && !EstBlanc(v[|v| - 1])
    ensures LireDirective(o, m + " " + v) == Directive(Nom(o, Minuscules(m)), v)
  {
    hide Nom, Minuscules;
    var l := m + " " + v;
    assert l[..|m|] == m && l[|m|] == ' ' && l[|m|..] == " " + v;
    MotNuJusque(l, |m|);
    assert l[0] == m[0];
    assert SansEspace(l) == l;
    assert (" " + v)[1..] == v;
    assert SansEspace(" " + v) == v;
    assert Couper(l) == Mot(m, v);
  }

  lemma MotsPropresDebut(k: nat)
    requires k < 3
    ensures SansSeparateur(TENUES[k].0)
  {
  }

  lemma MotsPropresMilieu(k: nat)
    requires 3 <= k < 5
    ensures SansSeparateur(TENUES[k].0)
  {
  }

  lemma MotsPropresFin(k: nat)
    requires 5 <= k < |TENUES|
    ensures SansSeparateur(TENUES[k].0)
  {
  }

  lemma TenueLue(o: OpenSSH, k: nat)
    requires k < |TENUES|
    ensures LireDirective(o, LigneTenue(k)) == Directive(Tenu(o, k), TENUES[k].1)
  {
    hide LireDirective, Minuscules, Nom;
    if k < 3 { MotsPropresDebut(k); } else if k < 5 { MotsPropresMilieu(k); } else { MotsPropresFin(k); }
    LireTenue(o, TENUES[k].0, TENUES[k].1);
  }

  lemma TenuTaille(o: OpenSSH, k: nat)
    requires k < |TENUES|
    ensures |Tenu(o, k)| == |TENUES[k].0| || (k == 3 && Tenu(o, k) == KBD)
  {
    assert |Minuscules(TENUES[k].0)| == |TENUES[k].0|;
    assert |KBD| == 28 && |CRA| == 31;
  }

  /** Two names of the block that are one to sshd have the same value there. */
  lemma TenusCompatibles(o: OpenSSH, j: nat, k: nat)
    requires j < |TENUES| && k < |TENUES| && Tenu(o, j) == Tenu(o, k)
    ensures TENUES[j].1 == TENUES[k].1
  {
    TenuTaille(o, j);
    TenuTaille(o, k);
    if {j, k} == {4, 5} { MethodesEtCommande(o); }
    hide Tenu;
  }

  lemma MethodesEtCommande(o: OpenSSH)
    ensures Tenu(o, 4) != Tenu(o, 5)
  {
    var a, b := Minuscules(TENUES[4].0), Minuscules(TENUES[5].0);
    assert |a| == 21 && |b| == 21 && a[4] == 'e' && b[4] == 'o' && |CRA| == 31;
  }

  lemma TenuPropre(o: OpenSSH, k: nat)
    requires k < |TENUES|
    ensures Tenu(o, k) != "match" && Tenu(o, k) != "include"
  {
    TenuTaille(o, k);
    hide Tenu;
  }

  lemma CommentaireLu(o: OpenSSH, l: string)
    requires EstMarqueur(l)
    ensures LireDirective(o, l) == Rien
  {
    Initiale(PREFIXE_MARQUEUR, l);
    assert l[0] == '#' && SansEspace(l) == l && MotNu(l)[0] == '#';
  }

  /** From line `j` of the block on, the keyword `k` not yet met. */
  lemma {:induction false} ValeurBloc(o: OpenSSH, j: nat, k: nat, suite: seq<string>, inclus: Inclus)
    requires 1 <= j <= k + 1 && k < |TENUES|
    ensures Valeur(o, BLOC[j..] + suite, inclus, Tenu(o, k)) == Some(TENUES[k].1)
    decreases k + 1 - j
  {
    hide LireDirective, LigneTenue, Minuscules, Nom;
    var l := BLOC[j..] + suite;
    assert l[0] == LigneTenue(j - 1) && l[1..] == BLOC[j + 1..] + suite;
    TenueLue(o, j - 1);
    TenuPropre(o, j - 1);
    TenuPropre(o, k);
    if Tenu(o, j - 1) == Tenu(o, k) {
      TenusCompatibles(o, j - 1, k);
    } else {
      ValeurBloc(o, j + 1, k, suite, inclus);
    }
  }

  lemma ValeurDuBloc(o: OpenSSH, k: nat, suite: seq<string>, inclus: Inclus)
    requires k < |TENUES|
    ensures Valeur(o, BLOC + suite, inclus, Tenu(o, k)) == Some(TENUES[k].1)
  {
    hide LireDirective, LigneTenue, Minuscules, Nom;
    CommentaireLu(o, DEBUT);
    assert (BLOC + suite)[0] == DEBUT && (BLOC + suite)[1..] == BLOC[1..] + suite;
    ValeurBloc(o, 1, k, suite, inclus);
  }

  lemma {:induction false} ValeurAvant(o: OpenSSH, l: seq<string>, suite: seq<string>, inclus: Inclus, mot: string)
    requires mot != "match" && mot != "include"
    ensures var d := Influence(o, l, mot);
            && (d.Rien? ==> Valeur(o, l + suite, inclus, mot) == Valeur(o, suite, inclus, mot))
            && (d.Directive? && d.mot == "match" ==> Valeur(o, l + suite, inclus, mot) == None)
            && (d.Directive? && d.mot == mot ==> Valeur(o, l + suite, inclus, mot) == Some(d.valeur))
            && (d.Directive? && d.mot == "include" && (d.valeur, mot) in inclus ==>
                  Valeur(o, l + suite, inclus, mot) == Some(inclus[(d.valeur, mot)]))
            && (d.Directive? ==> d.mot in {"match", "include", mot})
  {
    hide LireDirective;
    if l == [] {
      assert l + suite == suite;
    } else {
      assert (l + suite)[0] == l[0] && (l + suite)[1..] == l[1..] + suite;
      ValeurAvant(o, l[1..], suite, inclus, mot);
    }
  }

  /** A held keyword evaluates to the value of the block, whatever the included files say, exactly when the
      first line left above the block that could decide it, if any, already gives it that value. */
  lemma SensDuBloc(o: OpenSSH, contenu: string, k: nat)
    requires k < |TENUES|
    ensures var d := Influence(o, Survivantes(contenu)[..Place(contenu)], Tenu(o, k));
            (forall inclus: Inclus :: Valeur(o, Reecrite(contenu), inclus, Tenu(o, k)) == Some(TENUES[k].1))
            <==> d == Rien || d == Directive(Tenu(o, k), TENUES[k].1)
  {
    hide LireDirective, Minuscules, Survivantes, Valeur, Influence;
    var avant := Survivantes(contenu)[..Place(contenu)];
    var suite := Survivantes(contenu)[Place(contenu)..];
    var mot, v := Tenu(o, k), TENUES[k].1;
    assert Reecrite(contenu) == avant + (BLOC + suite);
    TenuPropre(o, k);
    var d := Influence(o, avant, mot);
    forall inclus: Inclus
      ensures d == Rien || d == Directive(mot, v) ==> Valeur(o, Reecrite(contenu), inclus, mot) == Some(v)
    {
      ValeurAvant(o, avant, BLOC + suite, inclus, mot);
      ValeurDuBloc(o, k, suite, inclus);
    }
    if d.Directive? && d != Directive(mot, v) {
      var contraire: Inclus := map[(d.valeur, mot) := v + "!"];
      ValeurAvant(o, avant, BLOC + suite, contraire, mot);
      assert Valeur(o, Reecrite(contenu), contraire, mot) != Some(v);
    }
  }

  /** With nothing above the block that could decide them, what sshd does: PAM and keyboard-interactive, after a key
      that the agent provides. */
  lemma BlocImpose(o: OpenSSH, contenu: string, inclus: Inclus)
    requires forall k | 0 <= k < |TENUES| :: Influence(o, Survivantes(contenu)[..Place(contenu)], Tenu(o, k)) == Rien
    ensures var l := Reecrite(contenu);
            && Valeur(o, l, inclus, "usepam") == Some("yes")
            && Valeur(o, l, inclus, "pubkeyauthentication") == Some("yes")
            && Valeur(o, l, inclus, "kbdinteractive" + "authentication") == Some("yes")
            && Valeur(o, l, inclus, "authenticationmethods") == Some("publickey," + "keyboard-interactive")
            && Valeur(o, l, inclus, "authorizedkeyscommand") == Some("/usr/bin/vaultaire_client" + " --fetch-key %u")
            && Valeur(o, l, inclus, "authorizedkeyscommanduser") == Some("root")
  {
    hide Valeur, Influence, Reecrite, Survivantes, Place;
    forall k | 0 <= k < |TENUES| ensures Valeur(o, Reecrite(contenu), inclus, Tenu(o, k)) == Some(TENUES[k].1) {
      SensDuBloc(o, contenu, k);
    }
    NomsTenus(o);
    assert TENUES[0].1 == "yes" && TENUES[1].1 == "yes" && TENUES[2].1 == "yes" && TENUES[6].1 == "root";
  }

  lemma NomsTenus(o: OpenSSH)
    ensures Tenu(o, 0) == "usepam" && Tenu(o, 1) == "pubkeyauthentication"
    ensures Tenu(o, 2) == "kbdinteractive" + "authentication" && Tenu(o, 4) == "authenticationmethods"
    ensures Tenu(o, 5) == "authorizedkeyscommand" && Tenu(o, 6) == "authorizedkeyscommanduser"
  {
    NomsCourts();
    NomLong("KbdInteractive", "Authentication", "kbdinteractive", "authentication");
    var u, p, m, c, r := "usepam", "pubkeyauthentication", "authenticationmethods", "authorizedkeyscommand",
                         "authorizedkeyscommanduser";
    assert |CRA| == 31 && |"skeyauthentication"| == 18 && |"dsaauthentication"| == 17;
    assert |u| == 6 && |p| == 20 && |m| == 21 && |c| == 21 && |r| == 25 && |KBD| == 28;
    assert "KbdInteractiveAuthentication" == "KbdInteractive" + "Authentication";
  }

  lemma NomsCourts()
    ensures Minuscules("UsePAM") == "usepam" && Minuscules("PubkeyAuthentication") == "pubkeyauthentication"
    ensures Minuscules("AuthenticationMethods") == "authenticationmethods"
    ensures Minuscules("AuthorizedKeysCommand") == "authorizedkeyscommand"
    ensures Minuscules("AuthorizedKeysCommandUser") == "authorizedkeyscommanduser"
    ensures Minuscules("KbdInteractive") == "kbdinteractive" && Minuscules("Authentication") == "authentication"
  {
    hide Minuscules;
    MotsEnMinuscules();
    NomLong("Pubkey", "Authentication", "pubkey", "authentication");
    NomLong("Authentication", "Methods", "authentication", "methods");
    NomLong("Authorized", "Keys", "authorized", "keys");
    NomLong("Authorized" + "Keys", "Command", "authorized" + "keys", "command");
    NomLong("AuthorizedKeysCommand", "User", "authorizedkeyscommand", "user");
    NomLong("Kbd", "Interactive", "kbd", "interactive");
    assert "PubkeyAuthentication" == "Pubkey" + "Authentication";
    assert "pubkeyauthentication" == "pubkey" + "authentication";
    assert "AuthenticationMethods" == "Authentication" + "Methods";
    assert "authenticationmethods" == "authentication" + "methods";
    MotsColles();
  }

  lemma MotsColles()
    ensures "AuthorizedKeysCommand" == "Authorized" + "Keys" + "Command"
    ensures "authorizedkeyscommand" == "authorized" + "keys" + "command"
    ensures "AuthorizedKeysCommandUser" == "AuthorizedKeysCommand" + "User"
    ensures "authorizedkeyscommanduser" == "authorizedkeyscommand" + "user"
    ensures "KbdInteractive" == "Kbd" + "Interactive" && "kbdinteractive" == "kbd" + "interactive"
  {
  }

  lemma MotsEnMinuscules()
    ensures Minuscules("UsePAM") == "usepam" && Minuscules("Pubkey") == "pubkey" && Minuscules("Methods") == "methods"
    ensures Minuscules("Authentication") == "authentication" && Minuscules("Authorized") == "authorized"
    ensures Minuscules("Keys") == "keys" && Minuscules("Command") == "command" && Minuscules("User") == "user"
    ensures Minuscules("Kbd") == "kbd" && Minuscules("Interactive") == "interactive"
  {
  }

  lemma NomLong(a: string, b: string, c: string, d: string)
    requires Minuscules(a) == c && Minuscules(b) == d
    ensures Minuscules(a + b) == c + d
  {
  }

  const INDENTEE := " " + ("UsePAM" + " " + "no")

  /** The family that fails, on one file: an indented directive is not taken away, and is read first. */
  lemma IndenteeGagne(o: OpenSSH, inclus: Inclus)
    ensures Valeur(o, Reecrite(INDENTEE), inclus, Tenu(o, 0)) == Some("no")
  {
    hide LireDirective, Minuscules, LigneMatch, Retiree, Nom;
    IndenteeSurvit();
    assert SansSeparateur("UsePAM") && !Separe('n') && !EstBlanc('o');
    LireTenue(o, "UsePAM", "no");
    LireIndentee(o, "UsePAM" + " " + "no");
    TenuPropre(o, 0);
    assert Reecrite(INDENTEE)[0] == INDENTEE;
  }

  const AUTRE_NOM := "SkeyAuthentication" + " " + "no"

  /** Another one: a directive under the other name of a held keyword is not taken away either. */
  lemma AutreNomGagne(inclus: Inclus)
    ensures Tenu(Depuis87, 2) == KBD && Valeur(Depuis87, Reecrite(AUTRE_NOM), inclus, KBD) == Some("no")
  {
    hide LireDirective, Minuscules, LigneMatch, Retiree;
    AutreNomSurvit();
    AutreNomLu();
    KbdTenu();
    assert Reecrite(AUTRE_NOM)[0] == AUTRE_NOM;
  }

  lemma KbdTenu()
    ensures Tenu(Depuis87, 2) == KBD
  {
    assert TENUES[2].0 == "KbdInteractive" + "Authentication";
    assert Minuscules("KbdInteractive") == "kbdinteractive" && Minuscules("Authentication") == "authentication";
    assert Minuscules("KbdInteractive" + "Authentication") == KBD;
  }

  lemma AutreNomLu()
    ensures LireDirective(Depuis87, AUTRE_NOM) == Directive(KBD, "no")
  {
    hide LireDirective;
    assert SansSeparateur("SkeyAuthentication") && !Separe('n') && !EstBlanc('o');
    LireTenue(Depuis87, "SkeyAuthentication", "no");
    assert Minuscules("SkeyAuthentication") == "skeyauthentication";
  }

  lemma AutreNomSurvit()
    ensures Survivantes(AUTRE_NOM) == [AUTRE_NOM] && Place(AUTRE_NOM) == 1
  {
    hide Retiree, LigneMatch, Split;
    assert SansFin(AUTRE_NOM) == AUTRE_NOM;
    SplitUneLigne(AUTRE_NOM);
    AutreNomGarde();
    PasMatch("S", AUTRE_NOM);
    GarderTout([AUTRE_NOM], Retiree);
  }

  lemma AutreNomGarde()
    ensures !Retiree(AUTRE_NOM) && Commence(AUTRE_NOM, "S")
  {
    assert AUTRE_NOM[0] == 'S' && PREFIXE_MARQUEUR[0] == '#';
    assert forall d | 0 <= d < |DIRECTIVES| :: DIRECTIVES[d][0] != 'S';
  }

  lemma IndenteeSurvit()
    ensures Survivantes(INDENTEE) == [INDENTEE] && Place(INDENTEE) == 1
  {
    hide Retiree, LigneMatch, Split;
    assert SansFin(INDENTEE) == INDENTEE;
    SplitUneLigne(INDENTEE);
    IndenteeGardee();
    IndenteeSansMatch();
    GarderTout([INDENTEE], Retiree);
  }

  lemma IndenteeGardee()
    ensures !Retiree(INDENTEE)
  {
    assert INDENTEE[0] == ' ' && PREFIXE_MARQUEUR[0] == '#';
    assert forall d | 0 <= d < |DIRECTIVES| :: DIRECTIVES[d][0] != ' ';
  }

  lemma IndenteeSansMatch()
    ensures !LigneMatch(INDENTEE)
  {
    assert INDENTEE[1..] == "UsePAM" + " " + "no";
    assert SansEspace("UsePAM" + " " + "no")[0] == 'U';
    assert Minuscules(SansEspace(INDENTEE)[..5])[0] == 'u';
  }

  lemma LireIndentee(o: OpenSSH, l: string)
    ensures LireDirective(o, " " + l) == LireDirective(o, l)
  {
    assert (" " + l)[1..] == l;
  }

  // --- Match sections -----------------------------------------------------------------

  /** Whatever the version: no keyword has `match` for another name. */
  predicate OuvreMatch(l: string) {
    var d := LireDirective(Depuis87, l);
    d.Directive? && d.mot == "match"
  }

  predicate EstMatch(m: string) { Minuscules(m) == "match" }

  /** The text starts with the word, a part of which may be between quotation marks. */
  predicate MatchEcrit(s: string) {
    || (|s| >= 5 && EstMatch(s[..5]) && (|s| == 5 || Separe(s[5])))
    || MatchCite(s)
  }

  predicate MatchCite(s: string) {
    |s| >= 7 && s[6] == '"' && exists i | 0 <= i <= 5 :: s[i] == '"' && EstMatch(s[..i] + s[i + 1..6])
  }

  /** The spellings sshd reads as Match and the program does not see: `match` followed by `=` or by nothing, a
      part of it between quotation marks, or after an empty first word, which is an equals sign or two
      quotation marks. */
  predicate MatchCache(l: string) {
    var s := SansEspace(l);
    || (|s| >= 5 && EstMatch(s[..5]) && (|s| == 5 || s[5] == '='))
    || MatchCite(s)
    || (Commence(s, "=") && MatchEcrit(SansEspace(s[1..])))
    || (Commence(s, "\"\"") && MatchEcrit(SansEspace(s[2..])))
  }

  lemma MatchNu(m: string)
    requires EstMatch(m)
    ensures |m| == 5 && SansSeparateur(m) && m[0] != '#'
  {
    forall i | 0 <= i < |m| ensures !Arret(m[i]) { assert Minuscules(m)[i] == Minuscule(m[i]) == "match"[i]; }
    assert Minuscules(m)[0] == Minuscule(m[0]);
  }

  lemma {:induction false} MotNuFinit(s: string)
    ensures var m := MotNu(s);
            SansSeparateur(m) && (|m| == |s| || Arret(s[|m|]))
  {
    if s != "" && !Arret(s[0]) { MotNuFinit(s[1..]); }
  }

  /** The word cut is `match` exactly under those spellings. */
  lemma CouperMatch(s: string)
    ensures Couper(s).Mot? && EstMatch(Couper(s).mot) <==> MatchEcrit(s)
  {
    hide SansEspace, SansEgal, Minuscules, EstMatch;
    var n := |MotNu(s)|;
    MotNuFinit(s);
    if Couper(s).Mot? && EstMatch(Couper(s).mot) {
      MatchNu(Couper(s).mot);
      if n < |s| && s[n] == '"' {
        var t := s[n + 1..];
        var q := Guillemet(t);
        assert n + q == 5 && s[6] == '"' && t[..q] == s[n + 1..6];
      }
    }
    if |s| >= 5 && EstMatch(s[..5]) && (|s| == 5 || Separe(s[5])) {
      MatchNu(s[..5]);
      MotNuJusque(s, 5);
    }
    if MatchCite(s) { CoupeCitee(s); }
  }

  lemma CoupeCitee(s: string)
    requires MatchCite(s)
    ensures Couper(s).Mot? && EstMatch(Couper(s).mot)
  {
    hide SansEspace, SansEgal, Minuscules, EstMatch;
    var i :| 0 <= i <= 5 && s[i] == '"' && EstMatch(s[..i] + s[i + 1..6]);
    var m := s[..i] + s[i + 1..6];
    MatchNu(m);
    assert m[..i] == s[..i];
    MotNuJusque(s, i);
    DansLesGuillemets(s, i, m);
  }

  lemma DansLesGuillemets(s: string, i: nat, m: string)
    requires i <= 5 && |s| >= 7 && s[6] == '"' && m == s[..i] + s[i + 1..6] && SansSeparateur(m)
    ensures var t := s[i + 1..];
            Guillemet(t) == 5 - i && t[..5 - i] == s[i + 1..6]
  {
    hide Guillemet;
    var t := s[i + 1..];
    forall j | 0 <= j < 5 - i ensures t[j] != '"' { assert t[j] == m[i + j]; }
    assert t[5 - i] == '"';
  }

  /** The first word is empty after an equals sign or two quotation marks, and then nothing else is skipped. */
  lemma CouperVide(s: string)
    ensures Couper(s).Mot? && Couper(s).mot == "" ==>
              || s == "" || Espace(s[0])
              || (Commence(s, "=") && Couper(s).reste == SansEspace(s[1..]))
              || (Commence(s, "\"\"") && Couper(s).reste == SansEspace(s[2..]))
    ensures Commence(s, "=") ==> Couper(s) == Mot("", SansEspace(s[1..]))
    ensures Commence(s, "\"\"") ==> Couper(s) == Mot("", SansEspace(s[2..]))
  {
    if s != "" && s[0] == '"' && |s| > 1 && s[1] == '"' { assert s[1..][1..] == s[2..] && Guillemet(s[1..]) == 0; }
  }

  lemma SansEspaceNet(l: string)
    ensures SansEspace(l) == "" || !Espace(SansEspace(l)[0])
  {
  }

  lemma LuMatch(l: string)
    ensures OuvreMatch(l) <==> Tete(l).Mot? && EstMatch(Tete(l).mot)
  {
    hide Tete, Minuscules;
    var c := Tete(l);
    if c.Mot? && EstMatch(c.mot) { MatchNu(c.mot); }
    assert KBD[0] == 'k' && CRA[0] == 'c';
  }

  /** What sshd reads as Match is what the program sees as Match, and those lines it does not see. */
  lemma MatchLu(l: string)
    ensures OuvreMatch(l) <==> LigneMatch(l) || MatchCache(l)
  {
    hide OuvreMatch, Couper, MatchCite, SansEspace, Minuscules;
    var s := SansEspace(l);
    LuMatch(l);
    SansEspaceNet(l);
    CouperMatch(s);
    CouperVide(s);
    VideMatch(s);
    if Commence(s, "=") { CouperMatch(SansEspace(s[1..])); }
    if Commence(s, "\"\"") { CouperMatch(SansEspace(s[2..])); }
  }

  lemma VideMatch(s: string)
    ensures s == "" ==> Couper(s) == Mot("", "")
    ensures Commence(s, "=") || Commence(s, "\"\"") ==> !MatchEcrit(s)
    ensures !EstMatch("") && MatchEcrit("") == false
  {
    if Commence(s, "=") || Commence(s, "\"\"") {
      CouperVide(s);
      CouperMatch(s);
    }
    assert SansEspace("") == "";
  }

  /** To sshd, no line of the block nor above it opens a Match section, exactly when no line left above it
      holds a Match the program does not see. */
  lemma BlocHorsMatch(contenu: string)
    ensures var r, n := Reecrite(contenu), Place(contenu);
            && n + |BLOC| <= |r|
            && ((forall k | 0 <= k < n + |BLOC| :: !OuvreMatch(r[k]))
                <==> forall x | x in Survivantes(contenu)[..n] :: !MatchCache(x))
  {
    hide LigneMatch, Retiree, OuvreMatch, MatchCache, Survivantes, Place;
    PlaceSansMatch(contenu);
    var r, n, avant := Reecrite(contenu), Place(contenu), Survivantes(contenu)[..Place(contenu)];
    forall k | 0 <= k < n ensures r[k] == avant[k] && (OuvreMatch(r[k]) <==> MatchCache(avant[k])) {
      MatchLu(r[k]);
    }
    forall k | n <= k < n + |BLOC| ensures !OuvreMatch(r[k]) {
      assert r[k] == BLOC[k - n];
      BlocFerme(k - n);
    }
  }

  lemma PlaceSansMatch(contenu: string)
    ensures Place(contenu) <= |Survivantes(contenu)|
    ensures forall k | 0 <= k < Place(contenu) :: !LigneMatch(Survivantes(contenu)[k])
  {
    hide LigneMatch, Survivantes;
  }

  lemma BlocFerme(k: nat)
    requires k < |BLOC|
    ensures !OuvreMatch(BLOC[k])
  {
    hide LireDirective, LigneTenue, Minuscules, Nom;
    if 1 <= k <= 7 {
      TenueLue(Depuis87, k - 1);
      TenuPropre(Depuis87, k - 1);
    } else if k == 8 {
      InclusFerme();
    } else {
      CommentaireLu(Depuis87, BLOC[k]);
    }
  }

  lemma InclusFerme()
    ensures !OuvreMatch(INCLUDE + " " + INCLUS)
  {
    hide Minuscules, LireDirective;
    assert SansSeparateur(INCLUDE) && !Separe(INCLUS[0]) && !EstBlanc(INCLUS[|INCLUS| - 1]);
    LireTenue(Depuis87, INCLUDE, INCLUS);
    assert Minuscules(INCLUDE)[0] == Minuscule('I') == 'i';
    assert |Minuscules(INCLUDE)| == 7 && KBD[0] == 'k' && CRA[0] == 'c';
  }

  /** One file: the block lands inside a Match section. */
  lemma MatchCacheExemple()
    ensures Place("Match=User x") == 1 && OuvreMatch(Reecrite("Match=User x")[0])
  {
    hide LigneMatch, OuvreMatch, MatchCache, Retiree, Split;
    var l := "Match=User x";
    assert SansFin(l) == l;
    SplitUneLigne(l);
    MatchCacheVu(l);
    GarderTout([l], Retiree);
    MatchLu(l);
  }

  lemma MatchCacheVu(l: string)
    requires l == "Match=User x"
    ensures !Retiree(l) && !LigneMatch(l) && MatchCache(l)
  {
    assert SansEspace(l) == l;
    assert l[0] == 'M' && PREFIXE_MARQUEUR[0] == '#';
    assert forall d | 0 <= d < |DIRECTIVES| :: DIRECTIVES[d][0] != 'M';
    assert l[..5] == "Match" && Minuscules("Match") == "match";
  }
}
