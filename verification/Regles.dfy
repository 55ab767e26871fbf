/** Which files are held, at which version, and how each is produced (regles.go, gabarits.go). */
module Regles {
  import opened Texte
  import opened ConfTextes
  import opened Secours
  import opened PileDebian
  import opened PileDebianProprietes
  import SSHD
  import SSHDSens
  import NSS

  // --- the stacks of Rocky, written whole ---------------------------------------------

  const PAM := "#%PAM-1.0"
  const AUTH := "auth" + "        "
  const ACCOUNT := "account     "
  const PASSWORD := "password    "
  const SESSION_ROCKY := "session     "
  const SUBSTACK := "substack       "
  const INCLUDE := "include        "
  const REQUIRED := "required       "
  const OPTIONAL := "optional       "
  const HUIT := "        "
  const PERMIT := "pam_selinux_permit.so"

  const PILE_LOGIN_ROCKY: seq<string> := [
    PAM,
    MARQUE_PAM,
    LigneAuth(HUIT, CONTROLE_DIE, LOGIN),
    AUTH + SUBSTACK + "system-auth",
    AUTH + INCLUDE + "postlogin",
    "",
    ACCOUNT + REQUIRED + "pam_nologin.so",
    ACCOUNT + INCLUDE + "system-auth",
    "",
    PASSWORD + INCLUDE + "system-auth",
    "",
    SESSION_ROCKY + REQUIRED + "pam_selinux.so close",
    SESSION_ROCKY + REQUIRED + "pam_loginuid.so",
    SESSION_ROCKY + REQUIRED + "pam_selinux.so open",
    SESSION_ROCKY + REQUIRED + "pam_logout_custom_module.so",
    SESSION_ROCKY + REQUIRED + "pam_namespace.so",
    SESSION_ROCKY + OPTIONAL + "pam_keyinit.so force revoke",
    SESSION_ROCKY + INCLUDE + "system-auth",
    SESSION_ROCKY + INCLUDE + "postlogin",
    "-session    " + OPTIONAL + "pam_ck_connector.so"]

  const PILE_SSHD_ROCKY: seq<string> := [
    PAM,
    MARQUE_PAM,
    LigneAuth(HUIT, CONTROLE_DIE, SSH),
    AUTH + SUBSTACK + "password-auth",
    AUTH + INCLUDE + "postlogin",
    "",
    ACCOUNT + REQUIRED + "pam_nologin.so",
    ACCOUNT + INCLUDE + "password-auth",
    "",
    SESSION_ROCKY + REQUIRED + "pam_selinux.so close",
    SESSION_ROCKY + REQUIRED + "pam_loginuid.so",
    SESSION_ROCKY + REQUIRED + "pam_selinux.so open " + "env_params",
    SESSION_ROCKY + REQUIRED + "pam_namespace.so",
    SESSION_ROCKY + OPTIONAL + "pam_keyinit.so force revoke",
    SESSION_ROCKY + OPTIONAL + "pam_motd.so",
    SESSION_ROCKY + INCLUDE + "password-auth",
    SESSION_ROCKY + INCLUDE + "postlogin"]

  const PILE_GDM_ROCKY: seq<string> := [
    PAM,
    MARQUE_PAM,
    LigneAuth(HUIT, CONTROLE_BAD, LOGIN),
    LigneAuth(HUIT, CONTROLE_BAD, PERMIT),
    AUTH + SUBSTACK + "password-auth",
    AUTH + OPTIONAL + "pam_gnome_keyring.so",
    AUTH + INCLUDE + "postlogin",
    "",
    ACCOUNT + REQUIRED + "pam_nologin.so",
    ACCOUNT + INCLUDE + "password-auth",
    "",
    PASSWORD + SUBSTACK + "password-auth",
    "-password   " + OPTIONAL + "pam_gnome_keyring.so " + "use_authtok",
    "",
    SESSION_ROCKY + REQUIRED + "pam_selinux.so close",
    SESSION_ROCKY + REQUIRED + "pam_loginuid.so",
    SESSION_ROCKY + OPTIONAL + "pam_console.so",
    "-session    " + OPTIONAL + "pam_ck_connector.so",
    SESSION_ROCKY + REQUIRED + "pam_selinux.so open",
    SESSION_ROCKY + REQUIRED + "pam_logout_custom_module.so",
    SESSION_ROCKY + OPTIONAL + "pam_keyinit.so force revoke",
    SESSION_ROCKY + REQUIRED + "pam_namespace.so",
    SESSION_ROCKY + INCLUDE + "password-auth",
    SESSION_ROCKY + OPTIONAL + "pam_gnome_keyring.so " + "auto_start",
    SESSION_ROCKY + INCLUDE + "postlogin"]

  const DCONF_GDM: seq<string> := [MARQUE_PAM, "[org/gnome/login-screen]", "disable-user-list=true"]

  // --- the rules ----------------------------------------------------------------------

  datatype Producteur = Gabarit(g: seq<string>) | Pile(auth: string, session: string) | Sshd | Nss

  function Produire(p: Producteur, actuel: string): Resultat<string> {
    match p
    case Gabarit(g) => Ok(Joindre(g))
    case Pile(auth, session) => PileVoulue(actuel, auth, session)
    case Sshd => Ok(Joindre(SSHD.Reecrite(actuel)))
    case Nss => NSS.NSSVoulu(actuel)
  }

  datatype Groupe = PilesPAM | SshdConfig | Nsswitch | EcranDeConnexion
  datatype Famille = Rocky | Debian | Inconnue

  datatype Apres = RienApres | ApresSshd | ApresDconf

  /** `porte`: the candidate goes through the emergency door check; `validerSSHD`: through sshd -t. */
  datatype Regle = Regle(rel: string, groupe: Groupe, version: int, requis: bool, creer: bool,
                         produire: Producteur, porte: bool, validerSSHD: bool, apres: Apres)

  const VERSION := 1

  function PileRegle(nom: string, p: Producteur): Regle {
    Regle("etc/pam.d/" + nom, PilesPAM, VERSION, true, false, p, true, false, RienApres)
  }

  /** `Regles`; an unknown family has none. */
  function ReglesDe(f: Famille, avecGDM: bool): seq<Regle> {
    if f == Inconnue then []
    else
      (if f == Rocky then
         [PileRegle("login", Gabarit(PILE_LOGIN_ROCKY)), PileRegle("sshd", Gabarit(PILE_SSHD_ROCKY))]
         + (if avecGDM then [PileRegle("gdm-password", Gabarit(PILE_GDM_ROCKY))] else [])
       else
         [PileRegle("login", Pile(AUTH_LOGIN, SESSION)), PileRegle("sshd", Pile(AUTH_SSHD, ""))]
         + (if avecGDM then [PileRegle("gdm-password", Pile(AUTH_GDM, SESSION))] else []))
      + [Regle("etc/ssh/sshd_config", SshdConfig, VERSION, true, false, Sshd, false, true, ApresSshd),
         Regle("etc/nsswitch.conf", Nsswitch, VERSION, true, false, Nss, false, false, RienApres)]
      + (if avecGDM then
           [Regle("etc/dconf/db/gdm.d/" + "10-vaultaire-userlist", EcranDeConnexion, VERSION, false, true,
                  Gabarit(DCONF_GDM), false, false, ApresDconf)]
         else [])
  }

  // --- each producer gives its version ---------------------------------------------------

  predicate Livre(p: Producteur) {
    match p
    case Gabarit(g) => g in {PILE_LOGIN_ROCKY, PILE_SSHD_ROCKY, PILE_GDM_ROCKY, DCONF_GDM}
    case Pile(auth, session) => AuthLivree(auth) && session in {"", SESSION}
    case _ => true
  }

  lemma ReglesLivrees(f: Famille, avecGDM: bool, i: nat)
    requires i < |ReglesDe(f, avecGDM)|
    ensures Livre(ReglesDe(f, avecGDM)[i].produire) && ReglesDe(f, avecGDM)[i].version == VERSION
  {
    hide LigneAuth;
  }

  /** What each held file goes through: the stacks of PAM the emergency door, sshd_config the check of sshd and a
      reload; only the screen file of the display manager may be created, the others are required. */
  lemma ReglesTenues(f: Famille, avecGDM: bool, i: nat)
    requires i < |ReglesDe(f, avecGDM)|
    ensures var r := ReglesDe(f, avecGDM)[i];
            && (r.porte <==> "etc/pam.d/" <= r.rel) && (r.groupe == PilesPAM <==> "etc/pam.d/" <= r.rel)
            && (r.validerSSHD <==> r.rel == "etc/ssh/sshd_config")
            && (r.apres == ApresSshd <==> r.rel == "etc/ssh/sshd_config")
            && (r.creer <==> "etc/dconf/" <= r.rel) && (r.requis <==> !r.creer)
            && (r.produire.Pile? ==>
                  if r.rel == "etc/pam.d/sshd" then r.produire == Pile(AUTH_SSHD, "")
                  else r.produire == Pile(if r.rel == "etc/pam.d/login" then AUTH_LOGIN else AUTH_GDM, SESSION))
            && (r.porte && r.produire.Gabarit? ==>
                  r.produire.g == if r.rel == "etc/pam.d/login" then PILE_LOGIN_ROCKY
                                  else if r.rel == "etc/pam.d/sshd" then PILE_SSHD_ROCKY
                                  else PILE_GDM_ROCKY)
  {
    hide LigneAuth;
    var r := ReglesDe(f, avecGDM)[i];
    var p, q := "etc/pam.d/", "etc/dconf/";
    assert p[4] == 'p' && q[4] == 'd' && "etc/ssh/sshd_config"[4] == 's' && "etc/nsswitch.conf"[4] == 'n';
    if p <= r.rel { assert r.rel[4] == 'p'; }
    if q <= r.rel { assert r.rel[4] == 'd'; }
  }

  lemma JoinDeux(l: seq<string>)
    requires |l| > 1
    ensures Join(l) == l[0] + "\n" + Join(l[1..])
  {
  }

  lemma {:induction false} SplitTete(tete: seq<string>, reste: seq<string>)
    requires DesLignes(tete) && reste != []
    ensures Split(Join(tete + reste)) == tete + Split(Join(reste))
  {
    if tete == [] {
      assert tete + reste == reste;
    } else {
      hide Split, Join, UneLigne;
      var l := tete + reste;
      assert l[0] == tete[0] && l[1..] == tete[1..] + reste;
      SplitTete(tete[1..], reste);
      JoinDeux(l);
      SplitUneLigne(tete[0]);
      SplitCoupe(tete[0], Join(l[1..]));
      assert tete == [tete[0]] + tete[1..];
      assert [tete[0]] + (tete[1..] + Split(Join(reste))) == tete + Split(Join(reste));
    }
  }

  /** The first lines of a template are its first lines once written. */
  lemma LignesTete(g: seq<string>, n: nat)
    requires n < |g| && DesLignes(g[..n])
    ensures n <= |Lignes(Joindre(g))| && Lignes(Joindre(g))[..n] == g[..n]
  {
    hide Join, Split;
    assert g == g[..n] + g[n..];
    assert SansFin(Join(g) + "\n") == Join(g);
    SplitTete(g[..n], g[n..]);
  }

  lemma GabaritVersion(g: seq<string>)
    requires g in {PILE_LOGIN_ROCKY, PILE_SSHD_ROCKY, PILE_GDM_ROCKY, DCONF_GDM}
    ensures LireVersion(Joindre(g)) == VERSION
  {
    hide VersionLigne, VersionLignes, Lignes, Joindre, LigneAuth;
    var n := if g == DCONF_GDM then 1 else 2;
    TeteUneLigne();
    LignesTete(g, n);
    MarqueVersion();
    var l := Lignes(Joindre(g));
    assert !EstMarqueur(PAM) by { assert PAM[1] == '%' && PREFIXE_MARQUEUR[1] == ' '; }
    assert g[n - 1] == MARQUE_PAM && (n == 2 ==> g[0] == PAM);
    assert forall k | 0 <= k < n :: l[k] == l[..n][k] == g[k];
    assert l == l[..n - 1] + [MARQUE_PAM] + l[n..];
    SansVersions(l[..n - 1]);
    VersionSansMarqueur(l[..n - 1], MARQUE_PAM, l[n..]);
  }

  lemma TeteUneLigne()
    ensures UneLigne(PAM) && UneLigne(MARQUE_PAM)
  {
  }

  /** Every producer gives the version of its rule. */
  lemma ProducteurVersion(p: Producteur, actuel: string)
    requires Livre(p) && Produire(p, actuel).Ok?
    ensures LireVersion(Produire(p, actuel).value) == VERSION
  {
    hide Lignes, Joindre, VersionLignes, LigneAuth;
    match p
    case Gabarit(g) => GabaritVersion(g);
    case Pile(auth, session) =>
      AuthUneLigne(auth);
      SessionUneLigne();
      PileIdempotente(actuel, auth, session);
    case Sshd => SSHDSens.ReecrireIdempotente(actuel);
    case Nss => NSS.NSSIdempotent(actuel);
  }

  lemma SessionUneLigne()
    ensures UneLigne(SESSION) && UneLigne("")
  {
  }

  lemma AuthUneLigne(auth: string)
    requires AuthLivree(auth)
    ensures UneLigne(auth)
  {
    LigneAuthUneLigne("    ", CONTROLE_DIE, LOGIN);
    LigneAuthUneLigne("    ", CONTROLE_DIE, SSH);
    LigneAuthUneLigne("    ", CONTROLE_BAD, LOGIN);
  }

  lemma LigneAuthUneLigne(b: string, c: string, m: string)
    requires b in {"    ", HUIT} && c in {CONTROLE_DIE, CONTROLE_BAD} && UneLigne(m)
    ensures UneLigne(LigneAuth(b, c, m))
  {
    assert UneLigne(HUIT) && UneLigne("    ") && UneLigne("auth");
    assert UneLigne(CONTROLE_DIE) && UneLigne(CONTROLE_BAD);
  }

  // --- the templates keep the emergency door -----------------------------------------------

  lemma TroisMots(a: string, b: string, c: string, blancs: string, blancs': string)
    requires a != "" && b != "" && c != "" && SansBlanc(a) && SansBlanc(b) && SansBlanc(c)
    requires blancs != "" && blancs' != "" && ToutBlanc(blancs) && ToutBlanc(blancs')
    ensures Champs(a + blancs + (b + blancs') + c) == [a, b, c]
  {
    hide Champs, EstBlanc;
    ChampsVide("");
    ChampsMot("", a, blancs + b + blancs' + c);
    ChampsMot(blancs, b, blancs' + c);
    ChampsMot(blancs', c, "");
    assert "" + a + (blancs + b + blancs' + c) == a + blancs + (b + blancs') + c;
    assert blancs + b + (blancs' + c) == blancs + b + blancs' + c;
    assert blancs' + c + "" == blancs' + c;
  }

  /** A prefix that holds the door open is enough. */
  lemma PortePrefixe(tete: seq<string>, ls: seq<string>)
    requires tete <= ls && PorteOuverte(tete)
    ensures PorteOuverte(ls)
  {
    hide ChargeVaultaire, Distribution, Coupe, Controle, Contient;
    var d: nat, j: nat :| PremierModule(tete, d) && Contient(Controle(tete[d]), "ignore=ignore") && Atteint(tete, d, j);
    assert forall k | 0 <= k < |tete| :: tete[k] == ls[k];
    assert PremierModule(ls, d) && Atteint(ls, d, j);
  }

  lemma SubstackDistribution(p: string)
    requires p in {"system-auth", "password-auth"}
    ensures Distribution(AUTH + SUBSTACK + p) && UneLigne(AUTH + SUBSTACK + p)
  {
    hide Champs, EstBlanc;
    var l := AUTH + SUBSTACK + p;
    MotsPropres();
    TroisMots("auth", "substack", p, HUIT, "       ");
    assert l == "auth" + HUIT + ("substack" + "       ") + p;
    ChampsTrim(l);
    PasDiese(l);
    assert UneLigne(AUTH) && UneLigne(SUBSTACK);
  }

  lemma MotsPropres()
    ensures SansBlanc("auth") && SansBlanc("substack") && SansBlanc("system-auth") && SansBlanc("password-auth")
    ensures ToutBlanc(HUIT) && ToutBlanc("       ")
  {
  }

  /** A line whose first field is `auth` is no comment. */
  lemma PasDiese(l: string)
    requires Champs(l) != [] && Champs(l)[0] == "auth"
    ensures !Commentaire(l)
  {
    hide Champs, EstBlanc;
    ChampsTrim(l);
    ChampsVide(l);
    TrimToutBlanc(l);
    ChampsInitiale(TrimSpace(l));
    assert "auth"[0] == 'a';
  }

  lemma TeteRocky(c: string, m: string, p: string)
    requires c in {CONTROLE_DIE, CONTROLE_BAD} && m in MODULES && p in {"system-auth", "password-auth"}
    ensures PorteOuverte([PAM, MARQUE_PAM, LigneAuth(HUIT, c, m), AUTH + SUBSTACK + p])
  {
    hide ChargeVaultaire, Distribution, Coupe, Controle, Contient, LigneAuth;
    var ls := [PAM, MARQUE_PAM, LigneAuth(HUIT, c, m), AUTH + SUBSTACK + p];
    MotsPropres();
    LigneAuthCharge(HUIT, c, m, "");
    assert LigneAuth(HUIT, c, m) + "" == LigneAuth(HUIT, c, m);
    ControleIgnore();
    SubstackDistribution(p);
    Diese();
    PasAuth(PAM);
    PasAuth(MARQUE_PAM);
    assert PremierModule(ls, 2) && Atteint(ls, 2, 3);
  }

  lemma Diese()
    ensures PAM[0] == '#' && MARQUE_PAM[0] == '#' && !EstBlanc('#')
  {
    assert PREFIXE_MARQUEUR[0] == '#';
  }

  /** The same for the screen, where a second control stands between the two. */
  lemma TeteGDM()
    ensures PorteOuverte([PAM, MARQUE_PAM, LigneAuth(HUIT, CONTROLE_BAD, LOGIN),
                          LigneAuth(HUIT, CONTROLE_BAD, PERMIT), AUTH + SUBSTACK + "password-auth"])
  {
    hide ChargeVaultaire, Distribution, Coupe, Controle, Contient, LigneAuth;
    var x := LigneAuth(HUIT, CONTROLE_BAD, PERMIT);
    var ls := [PAM, MARQUE_PAM, LigneAuth(HUIT, CONTROLE_BAD, LOGIN), x, AUTH + SUBSTACK + "password-auth"];
    MotsPropres();
    LigneAuthCharge(HUIT, CONTROLE_BAD, LOGIN, "");
    assert LigneAuth(HUIT, CONTROLE_BAD, LOGIN) + "" == LigneAuth(HUIT, CONTROLE_BAD, LOGIN);
    ControleIgnore();
    SubstackDistribution("password-auth");
    Diese();
    PasAuth(PAM);
    PasAuth(MARQUE_PAM);
    PermitPasse();
    assert PremierModule(ls, 2) && Atteint(ls, 2, 4);
  }

  lemma PermitPasse()
    ensures !Coupe(LigneAuth(HUIT, CONTROLE_BAD, PERMIT))
  {
    hide Champs, Contient, Indice, EstBlanc;
    var l := LigneAuth(HUIT, CONTROLE_BAD, PERMIT);
    var suite := "    " + PERMIT;
    assert l == "auth" + HUIT + "[" + CONTROLE_BAD + "]" + suite;
    CrochetsAbsents(CONTROLE_BAD);
    MotsPropres();
    assert l[|l| - 1] == PERMIT[|PERMIT| - 1] == 'o';
    LettresNonBlanches();
    ControleEntreCrochets(l, HUIT, CONTROLE_BAD, suite);
    AuthNette(l);
    TrimNette(l);
    BadNeCoupePas();
  }

  lemma LettresNonBlanches()
    ensures !EstBlanc('o') && !EstBlanc('a')
  {
  }

  /** No "=die" in the control of the screen: its three "=" are followed by "don", "ign" and "bad". */
  lemma BadNeCoupePas()
    ensures "[" + CONTROLE_BAD + "]" != "requisite" && !Contient("[" + CONTROLE_BAD + "]", "=die")
  {
    var s := "[" + CONTROLE_BAD + "]";
    assert "requisite"[0] == 'r' && s[0] == '[';
    forall i: nat | i <= |s| ensures !SousMot(s, i, "=die") {
      DieLettres(s, i);
      EgalSuivi(i);
    }
  }

  lemma DieLettres(s: string, i: nat)
    ensures SousMot(s, i, "=die") ==> s[i] == '=' && s[i + 1] == 'd' && s[i + 2] == 'i'
  {
    assert SousMot(s, i, "=die") ==> s[i..i + 4][0] == '=' && s[i..i + 4][1] == 'd' && s[i..i + 4][2] == 'i';
  }

  lemma EgalSuivi(i: nat)
    ensures var s := "[" + CONTROLE_BAD + "]"; i + 2 < |s| ==> !(s[i] == '=' && s[i + 1] == 'd' && s[i + 2] == 'i')
  {
  }

  lemma LoginGardeLaPorte()
    ensures PorteOuverte(Lignes(Joindre(PILE_LOGIN_ROCKY)))
  {
    hide PorteOuverte, LigneAuth, Lignes, Joindre;
    TeteUneLigne();
    SubstackDistribution("system-auth");
    LigneAuthUneLigne(HUIT, CONTROLE_DIE, LOGIN);
    var t := [PAM, MARQUE_PAM, LigneAuth(HUIT, CONTROLE_DIE, LOGIN), AUTH + SUBSTACK + "system-auth"];
    assert PILE_LOGIN_ROCKY[..4] == t;
    LignesTete(PILE_LOGIN_ROCKY, 4);
    TeteRocky(CONTROLE_DIE, LOGIN, "system-auth");
    PortePrefixe(t, Lignes(Joindre(PILE_LOGIN_ROCKY)));
  }

  lemma SSHDGardeLaPorte()
    ensures PorteOuverte(Lignes(Joindre(PILE_SSHD_ROCKY)))
  {
    hide PorteOuverte, LigneAuth, Lignes, Joindre;
    TeteUneLigne();
    SubstackDistribution("password-auth");
    LigneAuthUneLigne(HUIT, CONTROLE_DIE, SSH);
    var t := [PAM, MARQUE_PAM, LigneAuth(HUIT, CONTROLE_DIE, SSH), AUTH + SUBSTACK + "password-auth"];
    assert PILE_SSHD_ROCKY[..4] == t;
    LignesTete(PILE_SSHD_ROCKY, 4);
    TeteRocky(CONTROLE_DIE, SSH, "password-auth");
    PortePrefixe(t, Lignes(Joindre(PILE_SSHD_ROCKY)));
  }

  lemma GDMGardeLaPorte()
    ensures PorteOuverte(Lignes(Joindre(PILE_GDM_ROCKY)))
  {
    hide PorteOuverte, LigneAuth, Lignes, Joindre;
    TeteUneLigne();
    SubstackDistribution("password-auth");
    LigneAuthUneLigne(HUIT, CONTROLE_BAD, LOGIN);
    LigneAuthUneLigne(HUIT, CONTROLE_BAD, PERMIT);
    var t := [PAM, MARQUE_PAM, LigneAuth(HUIT, CONTROLE_BAD, LOGIN), LigneAuth(HUIT, CONTROLE_BAD, PERMIT),
              AUTH + SUBSTACK + "password-auth"];
    assert PILE_GDM_ROCKY[..5] == t;
    LignesTete(PILE_GDM_ROCKY, 5);
    TeteGDM();
    PortePrefixe(t, Lignes(Joindre(PILE_GDM_ROCKY)));
  }

  /** The three whole stacks of Rocky keep the emergency door open. */
  lemma GabaritGardeLaPorte(g: seq<string>)
    requires g in {PILE_LOGIN_ROCKY, PILE_SSHD_ROCKY, PILE_GDM_ROCKY}
    ensures PorteOuverte(Lignes(Joindre(g)))
  {
    hide *;
    LoginGardeLaPorte();
    SSHDGardeLaPorte();
    GDMGardeLaPorte();
  }

  /** Every stack the agent proposes passes its own check, whatever is in place, except a stack of Debian in
      which an auth line of the administrator already loads a module of Vaultaire above common-auth. */
  lemma CandidatPasse(p: Producteur, actuel: string)
    requires p.Gabarit? || p.Pile?
    requires p.Gabarit? ==> p.g in {PILE_LOGIN_ROCKY, PILE_SSHD_ROCKY, PILE_GDM_ROCKY}
    requires p.Pile? ==> Livre(p) && Branchable(Lignes(actuel))
    requires p.Pile? ==> var l := Reste(Lignes(actuel)); forall k | 0 <= k < Premier(l, CommonAuth) ::
        !ChargeVaultaire(l[k])
    ensures Produire(p, actuel).Ok? && PorteOuverte(Lignes(Produire(p, actuel).value))
  {
    hide PorteOuverte, LigneAuth, Lignes, Joindre, Reste, Branchee, CommonAuth, ChargeVaultaire;
    match p
    case Gabarit(g) => GabaritGardeLaPorte(g);
    case Pile(auth, session) =>
      var r := Branchee(Lignes(actuel), auth, session);
      AuthUneLigne(auth);
      SessionUneLigne();
      JoindreLignes(actuel);
      DesLignesBranchee(Lignes(actuel), auth, session);
      LignesJoindre(r);
      PileGardeLaPorte(Lignes(actuel), auth, session);
  }
}
