/** What branching a PAM stack of Debian keeps and guarantees. */
module PileDebianProprietes {
  import opened Texte
  import opened ConfTextes
  import opened Secours
  import opened PileDebian

  const FIN_DIE := " default=die"
  const FIN_BAD := " default=bad"
  const CONTROLE_DIE := "success=done " + "ignore=ignore" + FIN_DIE
  const CONTROLE_BAD := "success=done " + "ignore=ignore" + FIN_BAD
  const LOGIN := "pam_login_custom_module.so"
  const SSH := "pam_ssh_auth_module.so"

  function LigneAuth(blancs: string, controle: string, mod: string): string {
    "auth" + blancs + "[" + controle + "]" + "    " + mod
  }

  const AUTH_LOGIN := LigneAuth("    ", CONTROLE_DIE, LOGIN)
  const AUTH_SSHD := LigneAuth("    ", CONTROLE_DIE, SSH)
  const AUTH_GDM := LigneAuth("    ", CONTROLE_BAD, LOGIN)
  const SESSION := "session" + " required    pam_logout_custom_module.so"

  lemma InsereeDeVaultaire(l: string)
    ensures DeVaultaire(l + SUFFIXE)
  {
    assert SUFFIXE == "  " + "# vaultaire";
    assert SousMot(l + SUFFIXE, |l| + 2, "# vaultaire");
  }

  lemma AutresVide()
    ensures Autres([]) == []
  {
  }

  lemma AutresConcat(a: seq<string>, b: seq<string>)
    ensures Autres(a + b) == Autres(a) + Autres(b)
  {
    GarderConcat(a, b, DeVaultaire);
  }

  lemma {:induction false} CorpsAutres(l: seq<string>, b: Branchement, n: nat)
    requires n <= |l| && forall x | x in l :: !DeVaultaire(x)
    ensures Autres(Corps(l, b, n)) == l[..n]
  {
    hide Autres, DeVaultaire, Apport;
    AutresVide();
    if n > 0 {
      CorpsAutres(l, b, n - 1);
      AutresConcat(Corps(l, b, n - 1), Apport(l[n - 1], b, n - 1));
      ApportAutres(l[n - 1], b, n - 1);
      assert l[..n] == l[..n - 1] + [l[n - 1]];
    }
  }

  lemma ApportAutres(l: string, b: Branchement, k: nat)
    requires !DeVaultaire(l)
    ensures Autres(Apport(l, b, k)) == [l]
  {
    hide DeVaultaire;
    InsereeDeVaultaire(b.auth);
    InsereeDeVaultaire(b.session);
    var x := if k == b.avant then [b.auth + SUFFIXE] else [];
    var y := if b.session != "" && k == b.apres then [b.session + SUFFIXE] else [];
    GarderRien(x, DeVaultaire);
    GarderTout([l], DeVaultaire);
    GarderRien(y, DeVaultaire);
    GarderConcat(x, [l], DeVaultaire);
    GarderConcat(x + [l], y, DeVaultaire);
  }

  lemma ResteEtEntete(ls: seq<string>)
    ensures Autres(ls) == (if Entete(ls) then [ls[0]] else []) + Reste(ls)
    ensures forall x | x in Reste(ls) :: !DeVaultaire(x)
  {
    hide DeVaultaire;
    if ls != [] {
      AutresPrefixe(ls, 0);
      assert ls[..0] == [] && ls[..1] == [ls[0]];
    }
  }

  /** Whatever the stack, the lines of the administrator come out unchanged and in order. */
  lemma Conserve(ls: seq<string>, auth: string, session: string)
    ensures Autres(Branchee(ls, auth, session)) == Autres(ls)
  {
    hide DeVaultaire, Reste, Tete, Entete, Corps, Garder, Premier;
    var b := Places(ls, auth, session);
    var corps := Corps(Reste(ls), b, |Reste(ls)|);
    var fin := if session != "" && b.apres == |Reste(ls)| then [session + SUFFIXE] else [];
    ResteEtEntete(ls);
    CorpsAutres(Reste(ls), b, |Reste(ls)|);
    assert Reste(ls)[..|Reste(ls)|] == Reste(ls);
    InsereeDeVaultaire(session);
    GarderRien(fin, DeVaultaire);
    TeteAutres(ls);
    GarderConcat(Tete(ls), corps, DeVaultaire);
    GarderConcat(Tete(ls) + corps, fin, DeVaultaire);
  }

  /** A line that says nothing of Vaultaire. */
  predicate SansMention(l: string) { !Contient(l, "# vaultaire") }

  /** In other words: the lines without the mention `# vaultaire` are the same before and after, in order. */
  lemma ConserveSansMention(ls: seq<string>, auth: string, session: string)
    ensures Garder(Branchee(ls, auth, session), l => !SansMention(l)) == Garder(ls, l => !SansMention(l))
  {
    hide DeVaultaire, Branchee, SansMention, Garder;
    Conserve(ls, auth, session);
    forall l | DeVaultaire(l) ensures !SansMention(l) { MentionDeVaultaire(l); }
    DeuxTris(ls);
    DeuxTris(Branchee(ls, auth, session));
  }

  lemma MentionDeVaultaire(l: string)
    requires DeVaultaire(l)
    ensures !SansMention(l)
  {
    if EstMarqueur(l) {
      assert l[..|"# vaultaire-conf"|] == "# vaultaire-conf";
      assert l[0..11] == "# vaultaire-conf"[..11] == "# vaultaire";
      assert SousMot(l, 0, "# vaultaire");
    }
  }

  lemma {:induction false} DeuxTris(l: seq<string>)
    requires forall x | DeVaultaire(x) :: !SansMention(x)
    ensures Garder(Autres(l), x => !SansMention(x)) == Garder(l, x => !SansMention(x))
  {
    hide DeVaultaire, SansMention;
    if l != [] {
      var n := |l| - 1;
      DeuxTris(l[..n]);
      var a := Autres(l[..n]);
      assert (a + [l[n]])[..|a|] == a;
    }
  }

  lemma TeteAutres(ls: seq<string>)
    ensures Autres(Tete(ls)) == if Entete(ls) then [ls[0]] else []
  {
    hide LigneVaultaire;
    MarqueVersion();
    GarderRien([MARQUE_PAM], DeVaultaire);
    if Entete(ls) {
      GarderTout([ls[0]], DeVaultaire);
      GarderConcat([ls[0]], [MARQUE_PAM], DeVaultaire);
      assert [ls[0]] + [MARQUE_PAM] == [ls[0], MARQUE_PAM];
    }
  }

  lemma EnteteConservee(ls: seq<string>, auth: string, session: string)
    ensures Entete(Branchee(ls, auth, session)) <==> Entete(ls)
    ensures Reste(Branchee(ls, auth, session)) == Reste(ls)
    ensures Tete(Branchee(ls, auth, session)) == Tete(ls)
  {
    hide LigneVaultaire;
    var r := Branchee(ls, auth, session);
    MarqueVersion();
    assert r[0] == Tete(ls)[0];
    Conserve(ls, auth, session);
    ResteEtEntete(ls);
    ResteEtEntete(r);
  }

  /** Where a line of the new stack comes from. */
  lemma Provenance(ls: seq<string>, auth: string, session: string, k: nat)
    requires |Tete(ls)| <= k < |Branchee(ls, auth, session)|
    ensures var x := Branchee(ls, auth, session)[k]; x in Reste(ls) || x == auth + SUFFIXE || x == session + SUFFIXE
  {
    hide Reste, Tete, Premier;
    var b := Places(ls, auth, session);
    var l := Reste(ls);
    var corps := Corps(l, b, |l|);
    CorpsDansLignes(l, b, |l|);
    var x := Branchee(ls, auth, session)[k];
    assert k < |Tete(ls)| + |corps| ==> x == corps[k - |Tete(ls)|];
    assert l[..|l|] == l;
  }

  /** A line put in is one line. */
  lemma DesLignesBranchee(ls: seq<string>, auth: string, session: string)
    requires DesLignes(ls) && UneLigne(auth) && UneLigne(session)
    ensures DesLignes(Branchee(ls, auth, session))
  {
    hide Reste, Branchee, LigneVaultaire;
    var r := Branchee(ls, auth, session);
    ResteDansLignes(ls);
    MarqueUneLigne();
    UneLigneSuffixe(auth);
    UneLigneSuffixe(session);
    forall i | 0 <= i < |r| ensures UneLigne(r[i]) {
      TeteDeBranchee(ls, auth, session);
      if i >= |Tete(ls)| { Provenance(ls, auth, session, i); }
    }
  }

  lemma TeteDeBranchee(ls: seq<string>, auth: string, session: string)
    ensures Tete(ls) <= Branchee(ls, auth, session)
  {
  }

  lemma UneLigneSuffixe(l: string)
    requires UneLigne(l)
    ensures UneLigne(l + SUFFIXE)
  {
  }

  lemma MarqueUneLigne()
    ensures UneLigne(MARQUE_PAM)
  {
  }

  lemma ResteDansLignes(ls: seq<string>)
    ensures forall x | x in Reste(ls) :: x in ls
  {
    hide DeVaultaire;
    assert forall x | x in Autres(ls) :: x in ls;
  }

  lemma {:induction false} CorpsDansLignes(l: seq<string>, b: Branchement, n: nat)
    requires n <= |l|
    ensures forall x | x in Corps(l, b, n) ::
              x in l[..n] || (b.avant < n && x == b.auth + SUFFIXE) || (b.session != "" && x == b.session + SUFFIXE)
  {
    if n > 0 {
      CorpsDansLignes(l, b, n - 1);
      assert l[..n] == l[..n - 1] + [l[n - 1]];
    }
  }

  /** Branching a branched stack changes nothing; its version is that of the rule. */
  lemma PileIdempotente(contenu: string, auth: string, session: string)
    requires UneLigne(auth) && UneLigne(session) && PileVoulue(contenu, auth, session).Ok?
    ensures var v := PileVoulue(contenu, auth, session).value;
            && PileVoulue(v, auth, session) == Ok(v)
            && Autres(Lignes(v)) == Autres(Lignes(contenu))
            && LireVersion(v) == 1
  {
    hide Reste, Entete, Tete, Corps, Joindre;
    var ls := Lignes(contenu);
    var r := Branchee(ls, auth, session);
    JoindreLignes(contenu);
    DesLignesBranchee(ls, auth, session);
    LignesJoindre(r);
    EnteteConservee(ls, auth, session);
    Conserve(ls, auth, session);
    VersionBranchee(ls, auth, session);
  }

  lemma VersionBranchee(ls: seq<string>, auth: string, session: string)
    ensures VersionLignes(Branchee(ls, auth, session)) == 1
  {
    hide LigneVaultaire, VersionLigne, Branchee, Reste, VersionLignes;
    var r := Branchee(ls, auth, session);
    TeteDeBranchee(ls, auth, session);
    MarqueVersion();
    var k := |Tete(ls)| - 1;
    assert r == Tete(ls)[..k] + [MARQUE_PAM] + r[k + 1..];
    SansVersions(Tete(ls)[..k]);
    VersionSansMarqueur(Tete(ls)[..k], MARQUE_PAM, r[k + 1..]);
  }

  /** Exactly one marker: the line put at the head. */
  lemma UnSeulMarqueur(ls: seq<string>, auth: string, session: string, k: nat)
    requires k < |Branchee(ls, auth, session)|
    requires !EstMarqueur(auth + SUFFIXE) && !EstMarqueur(session + SUFFIXE)
    ensures EstMarqueur(Branchee(ls, auth, session)[k]) <==> k == |Tete(ls)| - 1
  {
    hide LigneVaultaire, Branchee, Reste;
    MarqueVersion();
    ResteEtEntete(ls);
    TeteDeBranchee(ls, auth, session);
    if k >= |Tete(ls)| { Provenance(ls, auth, session, k); }
  }

  /** Where nothing is put in, the body is the lines themselves. */
  lemma {:induction false} CorpsEntre(l: seq<string>, b: Branchement, i: nat, j: nat)
    requires i <= j <= |l| && !(i <= b.avant < j) && (b.session != "" ==> !(i <= b.apres < j))
    ensures Corps(l, b, j) == Corps(l, b, i) + l[i..j]
  {
    if i < j {
      CorpsEntre(l, b, i, j - 1);
      assert l[i..j] == l[i..j - 1] + [l[j - 1]];
      assert Apport(l[j - 1], b, j - 1) == [l[j - 1]];
    } else {
      assert Corps(l, b, i) + l[i..j] == Corps(l, b, i);
    }
  }

  /** What comes after `t`: the lines from `i` to `j`, line `k` replaced by `m`. */
  ghost function Pose<T>(t: seq<T>, l: seq<T>, i: nat, k: nat, m: seq<T>, j: nat): seq<T>
    requires i <= k < j <= |l|
  {
    t + l[i..k] + m + l[k + 1..j]
  }

  lemma CorpsApport(l: seq<string>, b: Branchement, k: nat, i: nat, j: nat)
    requires i <= k < j <= |l| && !(i <= b.avant < k) && !(k < b.avant < j)
    requires b.session != "" ==> !(i <= b.apres < k) && !(k < b.apres < j)
    ensures Corps(l, b, j) == Pose(Corps(l, b, i), l, i, k, Apport(l[k], b, k), j)
  {
    hide Apport;
    CorpsEntre(l, b, i, k);
    CorpsEntre(l, b, k + 1, j);
  }

  lemma ApportConnu(l: string, b: Branchement, k: nat)
    requires k == b.avant || (b.session != "" && k == b.apres)
    ensures var x, y := [b.auth + SUFFIXE], [b.session + SUFFIXE];
            Apport(l, b, k) == if b.session == "" || k != b.apres then x + [l]
                               else if k == b.avant then x + [l] + y else [l] + y
  {
  }

  lemma CorpsVide(l: seq<string>, b: Branchement)
    ensures Corps(l, b, 0) == []
  {
  }

  /** The body, where the session line is not put in. */
  lemma CorpsSansSession(l: seq<string>, b: Branchement)
    requires b.avant < |l| && (b.session == "" || b.apres == |l|)
    ensures Corps(l, b, |l|) == l[..b.avant] + [b.auth + SUFFIXE] + l[b.avant..]
  {
    hide Corps, Apport, Pose;
    CorpsVide(l, b);
    CorpsApport(l, b, b.avant, 0, |l|);
    ApportConnu(l[b.avant], b, b.avant);
    UneInsertion(l, b.avant, [b.auth + SUFFIXE], Apport(l[b.avant], b, b.avant));
  }

  lemma UneInsertion<T>(l: seq<T>, a: nat, x: seq<T>, m: seq<T>)
    requires a < |l| && m == x + [l[a]]
    ensures Pose([], l, 0, a, m, |l|) == l[..a] + x + l[a..]
  {
    assert l[a..] == [l[a]] + l[a + 1..] && l[a + 1..|l|] == l[a + 1..];
    assert [] + l[0..a] == l[..a];
    Accoler([], l[..a], x, [], [l[a]], l[a + 1..]);
  }

  ghost function AuthPuisSession<T>(l: seq<T>, a: nat, s: nat, x: seq<T>, y: seq<T>): seq<T>
    requires a <= s < |l|
  {
    l[..a] + x + l[a..s + 1] + y + l[s + 1..]
  }

  lemma CorpsAuthDAbord(l: seq<string>, b: Branchement)
    requires b.avant < b.apres < |l| && b.session != ""
    ensures Corps(l, b, |l|) == AuthPuisSession(l, b.avant, b.apres, [b.auth + SUFFIXE], [b.session + SUFFIXE])
  {
    hide Corps, Apport, Pose, AuthPuisSession;
    var a, s := b.avant, b.apres;
    CorpsVide(l, b);
    CorpsApport(l, b, a, 0, s);
    CorpsApport(l, b, s, s, |l|);
    ApportConnu(l[a], b, a);
    ApportConnu(l[s], b, s);
    DeuxInsertions(l, a, s, [b.auth + SUFFIXE], [b.session + SUFFIXE], Apport(l[a], b, a), Apport(l[s], b, s));
  }

  lemma CorpsEnsemble(l: seq<string>, b: Branchement)
    requires b.avant == b.apres < |l| && b.session != ""
    ensures Corps(l, b, |l|) == AuthPuisSession(l, b.avant, b.apres, [b.auth + SUFFIXE], [b.session + SUFFIXE])
  {
    hide Corps, Apport, Pose, AuthPuisSession;
    var a := b.avant;
    CorpsVide(l, b);
    CorpsApport(l, b, a, 0, |l|);
    ApportConnu(l[a], b, a);
    DeuxEnUne(l, a, [b.auth + SUFFIXE], [b.session + SUFFIXE], Apport(l[a], b, a));
  }

  lemma DeuxEnUne<T>(l: seq<T>, a: nat, x: seq<T>, y: seq<T>, m: seq<T>)
    requires a < |l| && m == x + [l[a]] + y
    ensures Pose([], l, 0, a, m, |l|) == AuthPuisSession(l, a, a, x, y)
  {
    assert l[a..a + 1] == [l[a]] && [] + l[0..a] == l[..a] && l[a + 1..|l|] == l[a + 1..];
    Accoler(l[..a], x, [l[a]], y, [], l[a + 1..]);
  }

  lemma DeuxInsertions<T>(l: seq<T>, a: nat, s: nat, x: seq<T>, y: seq<T>, m: seq<T>, n: seq<T>)
    requires a < s < |l| && m == x + [l[a]] && n == [l[s]] + y
    ensures Pose(Pose([], l, 0, a, m, s), l, s, s, n, |l|) == AuthPuisSession(l, a, s, x, y)
  {
    var c := l[a + 1..s];
    var d := [] + l[0..a] + m + c;
    assert l[a..s + 1] == [l[a]] + c + [l[s]] && [] + l[0..a] == l[..a] && l[s + 1..|l|] == l[s + 1..];
    assert d + l[s..s] == d;
    Associer(l[..a], x, [l[a]], c, [l[s]], y, l[s + 1..]);
  }

  lemma Associer<T>(a: seq<T>, x: seq<T>, b: seq<T>, m: seq<T>, e: seq<T>, y: seq<T>, f: seq<T>)
    ensures a + (x + b) + m + (e + y) + f == a + x + (b + m + e) + y + f
  {
  }

  lemma CorpsSessionDAbord(l: seq<string>, b: Branchement)
    requires b.apres < b.avant < |l| && b.session != ""
    ensures Corps(l, b, |l|) == l[..b.apres + 1] + [b.session + SUFFIXE] + l[b.apres + 1..b.avant] + [b.auth + SUFFIXE]
                                + l[b.avant..]
  {
    hide Corps, Apport, Pose;
    var a, s := b.avant, b.apres;
    CorpsVide(l, b);
    CorpsApport(l, b, s, 0, a);
    CorpsApport(l, b, a, a, |l|);
    ApportConnu(l[a], b, a);
    ApportConnu(l[s], b, s);
    SessionPuisAuth(l, s, a, [b.auth + SUFFIXE], [b.session + SUFFIXE], Apport(l[a], b, a), Apport(l[s], b, s));
  }

  lemma SessionPuisAuth<T>(l: seq<T>, s: nat, a: nat, x: seq<T>, y: seq<T>, m: seq<T>, n: seq<T>)
    requires s < a < |l| && m == x + [l[a]] && n == [l[s]] + y
    ensures Pose(Pose([], l, 0, s, n, a), l, a, a, m, |l|) == l[..s + 1] + y + l[s + 1..a] + x + l[a..]
  {
    var d := [] + l[0..s] + n + l[s + 1..a];
    assert l[..s + 1] == l[..s] + [l[s]] && l[a..] == [l[a]] + l[a + 1..] && [] + l[0..s] == l[..s];
    assert d + l[a..a] == d && l[a + 1..|l|] == l[a + 1..];
    Entrelacer(l[..s], [l[s]], y, l[s + 1..a], x, [l[a]], l[a + 1..]);
  }

  lemma Entrelacer<T>(a: seq<T>, b: seq<T>, c: seq<T>, d: seq<T>, e: seq<T>, f: seq<T>, g: seq<T>)
    ensures a + (b + c) + d + (e + f) + g == a + b + c + d + e + (f + g)
  {
  }

  lemma Accoler<T>(a: seq<T>, b: seq<T>, c: seq<T>, d: seq<T>, e: seq<T>, f: seq<T>)
    ensures a + (b + c + d) + f == a + b + c + d + f
    ensures a + b + (c + e) + f == a + b + c + (e + f)
  {
  }

  /** The whole stack: the opening line and the marker, then the lines of the administrator, with the auth line just
      before the first that includes common-auth, and the session line, if there is one, just after the first that
      includes common-session, or at the end without any. */
  lemma PileDecrite(ls: seq<string>, auth: string, session: string)
    requires Branchable(ls)
    ensures var l, x, y := Reste(ls), auth + "  # vaultaire", session + "  # vaultaire";
            var a, s := Premier(l, CommonAuth), Premier(l, CommonSession);
            && a < |l| && Inclut(l[a], "common-auth") && (forall k | 0 <= k < a :: !Inclut(l[k], "common-auth"))
            && s <= |l| && (s < |l| ==> Inclut(l[s], "common-session"))
            && (forall k | 0 <= k < s :: !Inclut(l[k], "common-session"))
            && Branchee(ls, auth, session) == Tete(ls) +
               if session == "" then l[..a] + [x] + l[a..]
               else if s == |l| then l[..a] + [x] + l[a..] + [y]
               else if a <= s then l[..a] + [x] + l[a..s + 1] + [y] + l[s + 1..]
               else l[..s + 1] + [y] + l[s + 1..a] + [x] + l[a..]
  {
    hide Reste, Tete, Inclut, Corps;
    var l, b := Reste(ls), Places(ls, auth, session);
    if session == "" || b.apres == |l| {
      CorpsSansSession(l, b);
    } else if b.avant < b.apres {
      CorpsAuthDAbord(l, b);
    } else if b.avant == b.apres {
      CorpsEnsemble(l, b);
    } else {
      CorpsSessionDAbord(l, b);
    }
  }

  // --- the emergency door ----------------------------------------------------------

  /** Where the auth line stands: the lines before it are those of the stack and the session line. */
  lemma {:induction false} CorpsCoupe(l: seq<string>, b: Branchement, n: nat)
    requires b.avant < n <= |l|
    ensures |Corps(l, b, b.avant)| + 1 < |Corps(l, b, n)|
    ensures Corps(l, b, n)[..|Corps(l, b, b.avant)| + 2] == Corps(l, b, b.avant) + [b.auth + SUFFIXE, l[b.avant]]
  {
    if n > b.avant + 1 {
      CorpsCoupe(l, b, n - 1);
    }
  }

  lemma InclutDistribution(l: string)
    requires CommonAuth(l)
    ensures Distribution(l)
  {
    hide Champs, TrimSpace, EstBlanc;
    InclutChamps(l);
    ChampsTrim(l);
    PasCommentaire(l);
  }

  lemma PasCommentaire(l: string)
    requires |Champs(l)| > 1 && Champs(l)[0] == "@include"
    ensures !Commentaire(l)
  {
    hide Champs, EstBlanc;
    ChampsTrim(l);
    ChampsVide(l);
    TrimToutBlanc(l);
    ChampsInitiale(TrimSpace(l));
    assert "@include"[0] == '@';
  }

  lemma InclutChamps(l: string)
    requires CommonAuth(l)
    ensures |Champs(l)| > 1 && Champs(l)[0] == "@include" && Champs(l)[1] == "common-auth"
  {
    hide Champs, EstBlanc, SansBlanc, SansTab;
    var apres := SansTab(l)[|"@include"|..];
    var r := SansTab(apres);
    MotsSansBlanc();
    EspaceBlanc();
    SansTabCoupe(apres);
    PremierMot(l, "@include");
    PremierMot(apres, "common-auth");
  }

  lemma SansTabCoupe(s: string)
    ensures |SansTab(s)| < |s| ==> Tabulation(s[0])
  {
  }

  lemma PremierMot(s: string, m: string)
    requires m != "" && SansBlanc(m) && Commence(SansTab(s), m)
    requires |SansTab(s)| > |m| ==> EstBlanc(SansTab(s)[|m|])
    ensures Champs(s) == [m] + Champs(SansTab(s)[|m|..])
  {
    hide Champs, EstBlanc, SansTab, SansBlanc, ToutBlanc;
    var t := SansTab(s);
    var b := s[..|s| - |t|];
    Couper(s, t, m);
    EspaceBlanc();
    TabBlanc(b);
    ChampsMot(b, m, t[|m|..]);
  }

  lemma Couper(l: string, s: string, m: string)
    requires |s| <= |l| && s == l[|l| - |s|..] && m <= s
    ensures l == l[..|l| - |s|] + m + s[|m|..]
  {
  }

  lemma TabBlanc(b: string)
    requires forall i | 0 <= i < |b| :: Tabulation(b[i])
    ensures ToutBlanc(b)
  {
  }

  lemma EspaceBlanc()
    ensures forall c | Tabulation(c) :: EstBlanc(c)
  {
  }

  lemma MotsSansBlanc()
    ensures SansBlanc("@include") && SansBlanc("common-auth")
  {
  }

  predicate AuthLivree(auth: string) { auth == AUTH_LOGIN || auth == AUTH_SSHD || auth == AUTH_GDM }

  lemma ChargeLivree(auth: string)
    requires AuthLivree(auth)
    ensures ChargeVaultaire(auth + SUFFIXE) && Contient(Controle(auth + SUFFIXE), "ignore=ignore")
  {
    hide Champs, Controle, Contient, LigneAuth;
    ControleIgnore();
    LigneAuthCharge("    ", CONTROLE_DIE, LOGIN, SUFFIXE);
    LigneAuthCharge("    ", CONTROLE_DIE, SSH, SUFFIXE);
    LigneAuthCharge("    ", CONTROLE_BAD, LOGIN, SUFFIXE);
  }

  lemma ControleIgnore()
    ensures Contient("[" + CONTROLE_DIE + "]", "ignore=ignore") && Contient("[" + CONTROLE_BAD + "]", "ignore=ignore")
  {
    hide Contient;
    IgnoreAuMilieu("success=done ", "ignore=ignore", FIN_DIE);
    IgnoreAuMilieu("success=done ", "ignore=ignore", FIN_BAD);
  }

  lemma IgnoreAuMilieu(a: string, m: string, b: string)
    ensures Contient("[" + (a + m + b) + "]", m)
  {
    ContientMilieu("[" + a, m, b + "]");
    assert "[" + a + m + (b + "]") == "[" + (a + m + b) + "]";
  }

  lemma LigneAuthCharge(blancs: string, c: string, m: string, fin: string)
    requires blancs != "" && ToutBlanc(blancs) && c in {CONTROLE_DIE, CONTROLE_BAD} && m in MODULES &&
        fin in {"", SUFFIXE}
    ensures ChargeVaultaire(LigneAuth(blancs, c, m) + fin) && Controle(LigneAuth(blancs, c, m) + fin) == "[" + c + "]"
  {
    hide Champs, Controle, EstBlanc;
    var l := LigneAuth(blancs, c, m) + fin;
    var suite := "    " + m + fin;
    assert l == "auth" + blancs + "[" + c + "]" + suite;
    CrochetsAbsents(c);
    DernierNonBlanc(m, fin);
    assert l[|l| - 1] == (m + fin)[|m + fin| - 1];
    ControleEntreCrochets(l, blancs, c, suite);
    ContientMilieu("auth" + blancs + "[" + c + "]" + "    ", m, fin);
  }

  lemma DernierNonBlanc(m: string, fin: string)
    requires m in MODULES && fin in {"", SUFFIXE}
    ensures !EstBlanc((m + fin)[|m + fin| - 1])
  {
    assert MODULES[0][|MODULES[0]| - 1] == 'o' && MODULES[1][|MODULES[1]| - 1] == 'o';
    assert fin != "" ==> (m + fin)[|m + fin| - 1] == SUFFIXE[|SUFFIXE| - 1];
  }

  lemma CrochetsAbsents(c: string)
    requires c in {CONTROLE_DIE, CONTROLE_BAD}
    ensures '[' !in c && ']' !in c
  {
  }

  lemma SessionLivree()
    ensures !ChargeVaultaire(SESSION + SUFFIXE)
  {
    Initiale("session", SESSION + SUFFIXE);
    PasAuth(SESSION + SUFFIXE);
  }

  lemma TeteSansModule(ls: seq<string>, k: nat)
    requires k < |Tete(ls)|
    ensures !ChargeVaultaire(Tete(ls)[k])
  {
    hide ChargeVaultaire;
    assert Tete(ls)[k] == MARQUE_PAM || Commence(Tete(ls)[k], "#%PAM");
    assert PREFIXE_MARQUEUR <= MARQUE_PAM;
    Initiale(if Tete(ls)[k] == MARQUE_PAM then PREFIXE_MARQUEUR else "#%PAM", Tete(ls)[k]);
    PasAuth(Tete(ls)[k]);
  }

  /** The candidate the agent is about to write keeps the emergency door open, unless the administrator has
      an auth line of his own that loads a module of Vaultaire above the first common-auth. */
  lemma PileGardeLaPorte(ls: seq<string>, auth: string, session: string)
    requires AuthLivree(auth) && (session == "" || session == SESSION) && Branchable(ls)
    requires forall k | 0 <= k < Premier(Reste(ls), CommonAuth) :: !ChargeVaultaire(Reste(ls)[k])
    ensures PorteOuverte(Branchee(ls, auth, session))
    ensures var r := Branchee(ls, auth, session);
            exists d: nat :: PremierModule(r, d) && d + 1 < |r| && r[d] == auth + SUFFIXE && Distribution(r[d + 1])
  {
    hide ChargeVaultaire, Distribution, Coupe, Controle, CommonAuth, Tete, Reste, Corps;
    var b := Places(ls, auth, session);
    var r := Branchee(ls, auth, session);
    var l := Reste(ls);
    var t, c, corps := Tete(ls), Corps(l, b, b.avant), Corps(l, b, |l|);
    CorpsCoupe(l, b, |l|);
    CorpsDansLignes(l, b, b.avant);
    var d := |t| + |c|;
    Decouper(r, t, corps, c, [auth + SUFFIXE, l[b.avant]]);
    InclutDistribution(r[d + 1]);
    ChargeLivree(auth);
    SessionLivree();
    forall k | 0 <= k < d ensures !ChargeVaultaire(r[k]) {
      if k < |t| {
        TeteSansModule(ls, k);
      } else {
        assert r[k] in c;
      }
    }
    assert PremierModule(r, d) && Atteint(r, d, d + 1);
  }

  lemma Decouper(r: seq<string>, t: seq<string>, corps: seq<string>, c: seq<string>, xy: seq<string>)
    requires t + corps <= r && c + xy <= corps && |xy| == 2
    ensures |t| + |c| + 1 < |r| && r[|t| + |c|] == xy[0] && r[|t| + |c| + 1] == xy[1]
    ensures forall k | 0 <= k < |t| :: r[k] == t[k]
    ensures forall k | |t| <= k < |t| + |c| :: r[k] == c[k - |t|]
  {
    var tc := t + corps;
    assert forall k | 0 <= k < |tc| :: r[k] == tc[k];
    assert forall k | 0 <= k < |c| + 2 :: corps[k] == (c + xy)[k];
  }
}
