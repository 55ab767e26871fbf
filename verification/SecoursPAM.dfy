/** What the emergency door is for: under the control flow of PAM (pam.conf(5)), does a local account reach the
    authentication of the distribution (secours.go:1-33)? */
module SecoursPAM {
  import opened Options
  import opened Texte
  import opened ConfTextes
  import opened Secours
  import PileDebian
  import opened PileDebianProprietes
  import opened Regles

  // --- how PAM reads one line --------------------------------------------------------------

  /** What a control makes of a result; `Saut(n)` passes over the next `n` modules. */
  datatype Action = Ignorer | Bon | Fini | Mauvais | Mourir | Remise | Saut(n: nat)

  datatype Paire = Paire(code: string, action: Action)

  const DEFAUT := "default"

  /** The names of the results of a module. */
  const RETOURS: set<string> := {
    "success", "open_err", "symbol_err", "service_err", "system_err", "buf_err", "perm_denied", "auth_err",
    "cred_insufficient", "authinfo_unavail", "user_unknown", "maxtries", "new_authtok_reqd", "acct_expired",
    "session_err", "cred_unavail", "cred_expired", "cred_err", "no_module_data", "conv_err", "authtok_err",
    "authtok_recover_err", "authtok_lock_busy", "authtok_disable_aging", "try_again", "ignore", "abort",
    "authtok_expired", "module_unknown", "bad_item", "conv_again", "incomplete"}

  type Code = c: string | c in RETOURS && c != DEFAUT witness "ignore"

  predicate LettreDeCode(c: char) { 'a' <= c <= 'z' || c == '_' }

  function CodeEnTete(s: string): (c: string)
    ensures c <= s && (|c| < |s| ==> !LettreDeCode(s[|c|])) && forall i | 0 <= i < |c| :: LettreDeCode(c[i])
  {
    if s == "" || !LettreDeCode(s[0]) then "" else [s[0]] + CodeEnTete(s[1..])
  }

  const MAX_SAUT := 0x7FFF_FFFF

  /** An action and its length; a jump over no module is `ignore`. */
  function LireAction(w: string): (r: Option<(Action, nat)>)
    ensures r.Some? ==> 0 < r.value.1 <= |w|
  {
    if Commence(w, "ignore") then Some((Ignorer, 6))
    else if Commence(w, "ok") then Some((Bon, 2))
    else if Commence(w, "done") then Some((Fini, 4))
    else if Commence(w, "bad") then Some((Mauvais, 3))
    else if Commence(w, "die") then Some((Mourir, 3))
    else if Commence(w, "reset") then Some((Remise, 5))
    else
      var d := ChiffresEnTete(w);
      if d == "" || ChiffresLus(d) > MAX_SAUT then None
      else Some((if ChiffresLus(d) == 0 then Ignorer else Saut(ChiffresLus(d)), |d|))
  }

  /** The pairs of a control; blanks may stand around the equals sign, and need not stand after an action. */
  function LirePaires(t: string): Option<seq<Paire>>
    decreases |t|
  {
    var s := TrimGauche(t);
    if s == "" then Some([])
    else
      var c := CodeEnTete(s);
      var u := TrimGauche(s[|c|..]);
      if (c !in RETOURS && c != DEFAUT) || !Commence(u, "=") then None
      else
        var w := TrimGauche(u[1..]);
        match LireAction(w)
        case None => None
        case Some((a, n)) =>
          match LirePaires(w[n..])
          case None => None
          case Some(p) => Some([Paire(c, a)] + p)
  }

  /** The text of a control, out of its brackets. */
  function SansCrochets(c: string): string {
    if Commence(c, "[") && |c| >= 2 then c[1..|c| - 1] else c
  }

  /** The four words, in any case, and otherwise pairs; what cannot be read makes every result a failure. */
  function Jeu(c: string): seq<Paire> {
    var m := Minuscules(c);
    if m == "required" then [Paire("success", Bon), Paire("new_authtok_reqd", Bon), Paire("ignore", Ignorer)]
    else if m == "requisite" then
      [Paire("success", Bon), Paire("new_authtok_reqd", Bon), Paire("ignore", Ignorer), Paire(DEFAUT, Mourir)]
    else if m == "sufficient" then
      [Paire("success", Fini), Paire("new_authtok_reqd", Fini), Paire(DEFAUT, Ignorer)]
    else if m == "optional" then [Paire("success", Bon), Paire("new_authtok_reqd", Bon), Paire(DEFAUT, Ignorer)]
    else match LirePaires(c) case Some(p) => p case None => []
  }

  /** The last action given to a result by its name. */
  function Donnee(p: seq<Paire>, r: string): Option<Action> {
    if p == [] then None
    else if p[|p| - 1].code == r then Some(p[|p| - 1].action)
    else Donnee(p[..|p| - 1], r)
  }

  /** The first default. */
  function ParDefaut(p: seq<Paire>): Action {
    if p == [] then Mauvais else if p[0].code == DEFAUT then p[0].action else ParDefaut(p[1..])
  }

  function ActionPour(p: seq<Paire>, r: Code): Action {
    match Donnee(p, r) case Some(a) => a case None => ParDefaut(p)
  }

  /** The four words, result by result. */
  lemma QuatreMots(r: Code)
    ensures ActionPour(Jeu("required"), r) == if r in {"success", "new_authtok_reqd"} then Bon
                                              else if r == "ignore" then Ignorer else Mauvais
    ensures ActionPour(Jeu("requisite"), r) == if r in {"success", "new_authtok_reqd"} then Bon
                                               else if r == "ignore" then Ignorer else Mourir
    ensures ActionPour(Jeu("sufficient"), r) == if r in {"success", "new_authtok_reqd"} then Fini else Ignorer
    ensures ActionPour(Jeu("optional"), r) == if r in {"success", "new_authtok_reqd"} then Bon else Ignorer
  {
    MotsLus();
    var s, n, d := "success", "new_authtok_reqd", DEFAUT;
    var b, c := Paire(s, Bon), Paire(n, Bon);
    var i := Paire("ignore", Ignorer);
    assert |s| == 7 && |n| == 16 && |"ignore"| == 6 && |d| == 7 && s[0] == 's' && d[0] == 'd';
    DeuxOuTrois(b, c, i, r);
    ActionTrois(b, c, Paire(d, Ignorer), r);
    ActionTrois(Paire(s, Fini), Paire(n, Fini), Paire(d, Ignorer), r);
    TroisPuisDefaut(b, c, i, Paire(d, Mourir), r);
  }

  lemma MotsLus()
    ensures Jeu("required") == [Paire("success", Bon), Paire("new_authtok_reqd", Bon), Paire("ignore", Ignorer)]
    ensures Jeu("requisite") == [Paire("success", Bon), Paire("new_authtok_reqd", Bon), Paire("ignore", Ignorer),
                                 Paire(DEFAUT, Mourir)]
    ensures Jeu("sufficient") == [Paire("success", Fini), Paire("new_authtok_reqd", Fini), Paire(DEFAUT, Ignorer)]
    ensures Jeu("optional") == [Paire("success", Bon), Paire("new_authtok_reqd", Bon), Paire(DEFAUT, Ignorer)]
  {
    hide LirePaires, Minuscules;
    MotsBas();
    assert |"required"| == 8 && |"requisite"| == 9 && |"sufficient"| == 10 && |"optional"| == 8;
    assert "optional"[0] == 'o' && "required"[0] == 'r';
  }

  lemma MotsBas()
    ensures Minuscules("required") == "required" && Minuscules("requisite") == "requisite"
    ensures Minuscules("sufficient") == "sufficient" && Minuscules("optional") == "optional"
  {
  }

  lemma DonneeSuivante(p: seq<Paire>, a: Paire, r: string)
    ensures Donnee(p + [a], r) == if a.code == r then Some(a.action) else Donnee(p, r)
  {
    assert (p + [a])[..|p|] == p;
  }

  lemma DefautSuivant(a: Paire, p: seq<Paire>)
    ensures ParDefaut([a] + p) == if a.code == DEFAUT then a.action else ParDefaut(p)
  {
    assert ([a] + p)[1..] == p;
  }

  lemma DeuxOuTrois(a: Paire, b: Paire, c: Paire, r: Code)
    requires a.code != DEFAUT && b.code != DEFAUT && c.code != DEFAUT
    ensures ActionPour([a, b, c], r) == if c.code == r then c.action else if b.code == r then b.action
                                        else if a.code == r then a.action else Mauvais
  {
    DonneeSuivante([], a, r);
    DonneeSuivante([a], b, r);
    DonneeSuivante([a, b], c, r);
    assert [] + [a] == [a] && [a] + [b] == [a, b] && [a, b] + [c] == [a, b, c];
    DefautSuivant(c, []);
    DefautSuivant(b, [c]);
    DefautSuivant(a, [b, c]);
    assert [c] + [] == [c] && [b] + [c] == [b, c] && [a] + [b, c] == [a, b, c];
  }

  lemma TroisPuisDefaut(a: Paire, b: Paire, c: Paire, d: Paire, r: Code)
    requires a.code != DEFAUT && b.code != DEFAUT && c.code != DEFAUT && d.code == DEFAUT
    ensures ActionPour([a, b, c, d], r) == if c.code == r then c.action else if b.code == r then b.action
                                           else if a.code == r then a.action else d.action
  {
    DonneeSuivante([], a, r);
    DonneeSuivante([a], b, r);
    DonneeSuivante([a, b], c, r);
    DonneeSuivante([a, b, c], d, r);
    assert [] + [a] == [a] && [a] + [b] == [a, b] && [a, b] + [c] == [a, b, c] && [a, b, c] + [d] == [a, b, c, d];
    DefautSuivant(d, []);
    DefautSuivant(c, [d]);
    DefautSuivant(b, [c, d]);
    DefautSuivant(a, [b, c, d]);
    assert [d] + [] == [d] && [c] + [d] == [c, d] && [b] + [c, d] == [b, c, d] && [a] + [b, c, d] == [a, b, c, d];
  }

  /** One line of the auth stack: `Locale` is the authentication of the distribution, `Inclusion` another file
      whose lines join the stack, `SousPile` one that is run apart. */
  datatype Etape = Absente | Locale | Inclusion | SousPile | Appel(paires: seq<Paire>)

  function EtapeDe(l: string): Etape {
    var t := TrimSpace(l);
    var c := Champs(t);
    if Distribution(l) then Locale
    else if Commentaire(l) || c == [] then Absente
    else if c[0] == "@include" then Inclusion
    else if Minuscules(c[0]) != "auth" && Minuscules(c[0]) != "-auth" then Absente
    else
      var w := SansCrochets(Controle(t));
      if Minuscules(w) == "include" then Inclusion
      else if Minuscules(w) == "substack" then SousPile
      else Appel(Jeu(w))
  }

  /** The stack as a local account meets it: the module of Vaultaire, on line `d`, ignores it. */
  ghost function Etapes(ls: seq<string>, d: nat): (es: seq<Etape>)
    ensures |es| == |ls|
  {
    seq(|ls|, k requires 0 <= k < |ls| =>
          if k == d && EtapeDe(ls[k]).Appel? then Appel([Paire(DEFAUT, ActionPour(EtapeDe(ls[k]).paires, "ignore"))])
          else EtapeDe(ls[k]))
  }

  // --- the walk ------------------------------------------------------------------------------

  /** What is unknown of a run at one line: the result of its module, whether the stack counts as passed so far,
      and whether the file included there ends the way. */
  datatype Alea = Alea(code: Code, positif: bool, coupe: bool)
  type Aleas = nat -> Alea

  datatype Fin = Arrive | Admis | Refuse

  /** The place after the next `n` modules. */
  function Passer(es: seq<Etape>, k: nat, n: nat): (l: nat)
    requires k <= |es|
    ensures k <= l <= |es|
    decreases |es| - k
  {
    if n == 0 || k == |es| then k else Passer(es, k + 1, if es[k].Absente? then n else n - 1)
  }

  function Destination(es: seq<Etape>, k: nat, a: Action): (l: nat)
    requires k < |es|
    ensures k < l <= |es|
  {
    if a.Saut? then Passer(es, k + 1, a.n) else k + 1
  }

  /** From line `k`: the account reaches the distribution, is let in before, or neither. */
  function Marche(es: seq<Etape>, k: nat, s: Aleas): Fin
    requires k <= |es|
    decreases |es| - k
  {
    if k == |es| then Refuse
    else
      match es[k]
      case Locale => Arrive
      case Absente => Marche(es, k + 1, s)
      case SousPile => Marche(es, k + 1, s)
      case Inclusion => if s(k).coupe then Refuse else Marche(es, k + 1, s)
      case Appel(p) =>
        var a := ActionPour(p, s(k).code);
        if a == Mourir then Refuse
        else if a == Fini && s(k).positif then Admis
        else Marche(es, Destination(es, k, a), s)
  }

  /** Some run goes from one line straight to the other. */
  ghost predicate Mene(es: seq<Etape>, k: nat, l: nat)
    requires k < |es|
  {
    match es[k]
    case Locale => false
    case Appel(p) => exists r: Code :: ActionPour(p, r) != Mourir && l == Destination(es, k, ActionPour(p, r))
    case _ => l == k + 1
  }

  ghost predicate Accessible(es: seq<Etape>, d: nat, k: nat)
    requires k <= |es|
  {
    k == d || exists m | d <= m < k :: Accessible(es, d, m) && Mene(es, m, k)
  }

  /** The end of the stack, an included file, a result that ends everything. */
  ghost predicate Perilleuse(es: seq<Etape>, k: nat)
    requires k <= |es|
  {
    || k == |es| || es[k] == Inclusion
    || (es[k].Appel? && exists r: Code :: ActionPour(es[k].paires, r) == Mourir)
  }

  // --- the exact condition -------------------------------------------------------------------

  /** A walk reads nothing of the lines behind it. */
  lemma {:induction false} MarcheDevant(es: seq<Etape>, k: nat, s: Aleas, t: Aleas)
    requires k <= |es| && forall i: nat | i >= k :: s(i) == t(i)
    ensures Marche(es, k, s) == Marche(es, k, t)
    decreases |es| - k
  {
    if k < |es| {
      match es[k]
      case Locale =>
      case Appel(p) =>
        var a := ActionPour(p, s(k).code);
        MarcheDevant(es, Destination(es, k, a), s, t);
      case _ => MarcheDevant(es, k + 1, s, t);
    }
  }

  /** A walk that fails has met a perilous line. */
  lemma {:induction false} RefusPerilleux(es: seq<Etape>, d: nat, k: nat, s: Aleas) returns (l: nat)
    requires d <= k <= |es| && Accessible(es, d, k) && Marche(es, k, s) == Refuse
    ensures d <= l <= |es| && Accessible(es, d, l) && Perilleuse(es, l)
    decreases |es| - k
  {
    l := k;
    if !Perilleuse(es, k) {
      var suivante := if es[k].Appel? then Destination(es, k, ActionPour(es[k].paires, s(k).code)) else k + 1;
      assert Mene(es, k, suivante);
      l := RefusPerilleux(es, d, suivante, s);
    }
  }

  /** A perilous line makes some walk from it fail. */
  lemma PerilRefuse(es: seq<Etape>, k: nat) returns (s: Aleas)
    requires k <= |es| && Perilleuse(es, k)
    ensures Marche(es, k, s) == Refuse
  {
    s := (i: nat) => Alea("success", false, true);
    if k < |es| && es[k].Appel? {
      var r: Code :| ActionPour(es[k].paires, r) == Mourir;
      s := (i: nat) => Alea(r, false, true);
    }
  }

  /** And so does a line that leads to one that does. */
  lemma UnPasAvant(es: seq<Etape>, m: nat, l: nat, s: Aleas) returns (t: Aleas)
    requires m < l <= |es| && Mene(es, m, l) && Marche(es, l, s) == Refuse
    ensures Marche(es, m, t) == Refuse
  {
    var x := Alea("success", false, false);
    if es[m].Appel? {
      var r: Code :| ActionPour(es[m].paires, r) != Mourir && l == Destination(es, m, ActionPour(es[m].paires, r));
      x := Alea(r, false, false);
    }
    t := (i: nat) => if i == m then x else s(i);
    MarcheDevant(es, l, s, t);
  }

  lemma {:induction false} PerilDepuis(es: seq<Etape>, d: nat, l: nat, s: Aleas) returns (t: Aleas)
    requires d <= l <= |es| && Accessible(es, d, l) && Marche(es, l, s) == Refuse
    ensures Marche(es, d, t) == Refuse
    decreases l
  {
    t := s;
    if l != d {
      var m: nat :| d <= m < l && Accessible(es, d, m) && Mene(es, m, l);
      var u := UnPasAvant(es, m, l, s);
      t := PerilDepuis(es, d, m, u);
    }
  }

  /** The requirement: whatever the other modules answer and the other files hold, an account that the module of
      Vaultaire ignores reaches the distribution, or is let in before. */
  ghost predicate PorteVraie(ls: seq<string>, d: nat)
    requires d < |ls|
  {
    forall s: Aleas :: Marche(Etapes(ls, d), d, s) != Refuse
  }

  /** It is met exactly when no line the walk can come to, before any line of the distribution, is the end of
      the stack, includes another file, or has a result that ends everything. */
  lemma PorteVraieSsi(ls: seq<string>, d: nat)
    requires d < |ls|
    ensures PorteVraie(ls, d) <==>
            forall k | d <= k <= |ls| && Accessible(Etapes(ls, d), d, k) :: !Perilleuse(Etapes(ls, d), k)
  {
    hide Etapes;
    var es := Etapes(ls, d);
    if k :| d <= k <= |es| && Accessible(es, d, k) && Perilleuse(es, k) {
      var s := PerilRefuse(es, k);
      var t := PerilDepuis(es, d, k, s);
      assert !PorteVraie(ls, d);
    }
    if !PorteVraie(ls, d) {
      var s: Aleas :| Marche(es, d, s) == Refuse;
      var l := RefusPerilleux(es, d, d, s);
    }
  }

  // --- what acceptance gives -------------------------------------------------------------------

  /** A line that lets the walk go on to the next, or lets the account in. */
  ghost predicate Douce(e: Etape) {
    || e.Absente? || e.SousPile?
    || (e.Appel? && forall r: Code :: ActionPour(e.paires, r) != Mourir && !ActionPour(e.paires, r).Saut?)
  }

  lemma {:induction false} DoucesJusque(es: seq<Etape>, k: nat, j: nat, s: Aleas)
    requires k <= j < |es| && es[j] == Locale && forall i | k <= i < j :: Douce(es[i])
    ensures Marche(es, k, s) != Refuse
    decreases j - k
  {
    if k < j { DoucesJusque(es, k + 1, j, s); }
  }

  /** An accepted stack keeps the door when the line of Vaultaire lets an ignored account go on and every line
      between it and the distribution is a gentle one. */
  lemma AccepteeDouce(ls: seq<string>, d: nat, j: nat)
    requires PremierModule(ls, d) && Atteint(ls, d, j)
    requires forall k | d <= k < j :: Douce(Etapes(ls, d)[k])
    ensures PorteVraie(ls, d)
  {
    hide PremierModule, Douce;
    forall s: Aleas ensures Marche(Etapes(ls, d), d, s) != Refuse {
      assert Etapes(ls, d)[j] == Locale;
      DoucesJusque(Etapes(ls, d), d, j, s);
    }
  }

  // --- the stacks shipped -----------------------------------------------------------------------

  /** The first line of Vaultaire keeps the door. */
  ghost predicate PorteFranche(ls: seq<string>) {
    exists d: nat :: PremierModule(ls, d) && PorteVraie(ls, d)
  }

  lemma {:induction false} CodeSuivi(c: string, s: string)
    requires (forall i | 0 <= i < |c| :: LettreDeCode(c[i])) && s != "" && !LettreDeCode(s[0])
    ensures CodeEnTete(c + s) == c
  {
    if c == "" {
      assert c + s == s;
    } else {
      CodeSuivi(c[1..], s);
      assert (c + s)[1..] == c[1..] + s;
    }
  }

  /** One pair read at the head of a text. */
  lemma PaireLue(b: string, c: string, jeton: string, a: Action, reste: string)
    requires ToutBlanc(b) && c != "" && (c in RETOURS || c == DEFAUT)
    requires forall i | 0 <= i < |c| :: LettreDeCode(c[i])
    requires jeton != "" && !EstBlanc(jeton[0]) && LireAction(jeton + reste) == Some((a, |jeton|))
    ensures LirePaires(b + (c + ("=" + (jeton + reste)))) ==
            match LirePaires(reste) case None => None case Some(p) => Some([Paire(c, a)] + p)
  {
    hide LireAction, EstBlanc;
    var u := "=" + (jeton + reste);
    var s := c + u;
    LettreNonBlanche(c[0]);
    TrimGaucheBlancs(b, s);
    assert s[0] == c[0] && TrimGauche(s) == s;
    CodeSuivi(c, u);
    assert s[|c|..] == u && u[1..] == jeton + reste;
    LettreNonBlanche('=');
    assert TrimGauche(u) == u && TrimGauche(jeton + reste) == jeton + reste;
    assert (jeton + reste)[|jeton|..] == reste;
  }

  lemma LettreNonBlanche(c: char)
    requires LettreDeCode(c) || c == '='
    ensures !EstBlanc(c)
  {
  }

  const JEU_DIE := [Paire("success", Fini), Paire("ignore", Ignorer), Paire(DEFAUT, Mourir)]
  const JEU_BAD := [Paire("success", Fini), Paire("ignore", Ignorer), Paire(DEFAUT, Mauvais)]

  lemma Jetons(reste: string)
    ensures LireAction("ignore" + reste) == Some((Ignorer, 6)) && LireAction("done" + reste) == Some((Fini, 4))
    ensures LireAction("bad" + reste) == Some((Mauvais, 3)) && LireAction("die" + reste) == Some((Mourir, 3))
    ensures !EstBlanc('i') && !EstBlanc('d') && !EstBlanc('b')
  {
    var i, o, b, e := "ignore" + reste, "done" + reste, "bad" + reste, "die" + reste;
    assert o[0] == 'd' && o[1] == 'o' && b[0] == 'b' && e[0] == 'd' && e[1] == 'i';
    assert "ignore"[0] == 'i' && "ok"[0] == 'o' && "done"[0] == 'd' && "done"[1] == 'o' && "bad"[0] == 'b';
  }

  lemma FinLue()
    ensures LirePaires(FIN_DIE) == Some([Paire(DEFAUT, Mourir)])
    ensures LirePaires(FIN_BAD) == Some([Paire(DEFAUT, Mauvais)])
  {
    hide LirePaires, LireAction, EstBlanc;
    VideLu();
    UneLue(FIN_DIE, "die", Mourir);
    UneLue(FIN_BAD, "bad", Mauvais);
    assert [Paire(DEFAUT, Mourir)] + [] == [Paire(DEFAUT, Mourir)];
    assert [Paire(DEFAUT, Mauvais)] + [] == [Paire(DEFAUT, Mauvais)];
  }

  lemma ControlesDistincts()
    ensures CONTROLE_DIE != CONTROLE_BAD
  {
    assert CONTROLE_DIE[|CONTROLE_DIE| - 1] == FIN_DIE[|FIN_DIE| - 1] == 'e';
    assert CONTROLE_BAD[|CONTROLE_BAD| - 1] == FIN_BAD[|FIN_BAD| - 1] == 'd';
  }

  lemma UneLue(fin: string, jeton: string, a: Action)
    requires fin == " " + (DEFAUT + ("=" + jeton)) && (jeton, a) in {("die", Mourir), ("bad", Mauvais)}
    ensures LirePaires(fin) == match LirePaires("") case None => None case Some(p) => Some([Paire(DEFAUT, a)] + p)
  {
    hide LirePaires, LireAction;
    Jetons("");
    assert jeton + "" == jeton;
    PaireLue(" ", DEFAUT, jeton, a, "");
  }

  lemma MilieuLu(fin: string)
    requires fin in {FIN_DIE, FIN_BAD}
    ensures LirePaires(" " + ("ignore=ignore" + fin)) ==
            match LirePaires(fin) case None => None case Some(p) => Some([Paire("ignore", Ignorer)] + p)
  {
    hide LirePaires;
    assert "ignore=ignore" + fin == "ignore" + ("=" + ("ignore" + fin));
    Jetons(fin);
    PaireLue(" ", "ignore", "ignore", Ignorer, fin);
  }

  lemma DebutLu(suite: string)
    requires Commence(suite, " ")
    ensures LirePaires("success=done" + suite) ==
            match LirePaires(suite) case None => None case Some(p) => Some([Paire("success", Fini)] + p)
  {
    hide LirePaires;
    assert "success=done" + suite == "" + ("success" + ("=" + ("done" + suite)));
    Jetons(suite);
    PaireLue("", "success", "done", Fini, suite);
  }

  /** The two controls shipped, as PAM reads them. */
  lemma ControleLu(c: string)
    requires c in {CONTROLE_DIE, CONTROLE_BAD}
    ensures Jeu(c) == if c == CONTROLE_DIE then JEU_DIE else JEU_BAD
  {
    hide LirePaires;
    var fin := if c == CONTROLE_DIE then FIN_DIE else FIN_BAD;
    FinLue();
    MilieuLu(fin);
    DebutLu(" " + ("ignore=ignore" + fin));
    assert c == "success=done" + (" " + ("ignore=ignore" + fin));
    assert |Minuscules(c)| == |c| > 10;
  }

  /** A line with a control in brackets, longer than a word, is a call of its module. */
  lemma EtapeCrochets(l: string, blancs: string, c: string, suite: string)
    requires LigneEntreCrochets(l, blancs, c, suite) && |c| > 8
    ensures EtapeDe(l) == Appel(Jeu(c))
  {
    hide Champs, EstBlanc, Jeu, Controle, Commentaire, Distribution, LigneEntreCrochets;
    ControleEntreCrochets(l, blancs, c, suite);
    CrochetsNets(l, blancs, c, suite);
    assert SansCrochets("[" + c + "]") == c;
    assert |Minuscules(c)| == |c|;
    assert Minuscules("auth") == "auth";
  }

  lemma CrochetsNets(l: string, blancs: string, c: string, suite: string)
    requires LigneEntreCrochets(l, blancs, c, suite)
    ensures TrimSpace(l) == l && !Commentaire(l) && !Distribution(l)
  {
    hide Champs, EstBlanc, Commentaire;
    ChampsEntreCrochets(l, blancs, c, suite);
    AuthNette(l);
    TrimNette(l);
    PasDiese(l);
    assert "auth"[0] == 'a' && "substack"[0] == 's' && "include"[0] == 'i';
  }

  lemma ActionTrois(a: Paire, b: Paire, c: Paire, r: Code)
    requires a.code != DEFAUT && b.code != DEFAUT && c.code == DEFAUT
    ensures ActionPour([a, b, c], r) == if b.code == r then b.action else if a.code == r then a.action else c.action
  {
    var p := [a, b, c];
    assert r != DEFAUT && p[..2] == [a, b] && p[..1] == [a] && p[..0] == [];
    assert p[..2][..1] == p[..1] && p[..1][..0] == p[..0];
    assert Donnee(p, r) == Donnee(p[..2], r);
    assert Donnee(p[..2], r) == if b.code == r then Some(b.action) else Donnee(p[..1], r);
    assert Donnee(p[..1], r) == if a.code == r then Some(a.action) else None;
    assert p[1..] == [b, c] && p[1..][1..] == [c];
    assert ParDefaut(p) == ParDefaut(p[1..]) == ParDefaut([c]) == c.action;
  }

  lemma ActionUne(a: Action, r: Code)
    ensures ActionPour([Paire(DEFAUT, a)], r) == a
  {
    var p := [Paire(DEFAUT, a)];
    assert p[..0] == [];
    assert r != DEFAUT && Donnee(p, r) == None && ParDefaut(p) == a;
  }

  lemma JeuxDoux(r: Code)
    ensures ActionPour(JEU_BAD, r) in {Fini, Ignorer, Mauvais}
    ensures ActionPour(JEU_DIE, "ignore") == Ignorer && ActionPour(JEU_BAD, "ignore") == Ignorer
  {
    assert |"success"| == 7 && |"ignore"| == 6 && |DEFAUT| == 7 && "success"[0] == 's' && DEFAUT[0] == 'd';
    ActionTrois(JEU_BAD[0], JEU_BAD[1], JEU_BAD[2], r);
    ActionTrois(JEU_BAD[0], JEU_BAD[1], JEU_BAD[2], "ignore");
    ActionTrois(JEU_DIE[0], JEU_DIE[1], JEU_DIE[2], "ignore");
  }

  /** A line of Vaultaire with one of the two controls, then lines with the gentle one, then the distribution. */
  lemma LivreeVraie(ls: seq<string>, d: nat, j: nat)
    requires d < j < |ls| && Distribution(ls[j])
    requires EtapeDe(ls[d]) in {Appel(JEU_DIE), Appel(JEU_BAD)}
    requires forall k | d < k < j :: EtapeDe(ls[k]) == Appel(JEU_BAD)
    ensures PorteVraie(ls, d)
  {
    hide Distribution, Douce, ActionPour, EtapeDe;
    var es := Etapes(ls, d);
    JeuxDoux("ignore");
    EtapesDouces();
    EtapeLocale(ls[j]);
    assert forall k | d <= k < j :: es[k] in {Appel([Paire(DEFAUT, Ignorer)]), Appel(JEU_BAD)};
    forall s: Aleas ensures Marche(es, d, s) != Refuse { DoucesJusque(es, d, j, s); }
  }

  lemma EtapesDouces()
    ensures Douce(Appel([Paire(DEFAUT, Ignorer)])) && Douce(Appel(JEU_BAD))
  {
    hide ActionPour;
    forall r: Code
      ensures ActionPour([Paire(DEFAUT, Ignorer)], r) == Ignorer && ActionPour(JEU_BAD, r) in {Fini, Ignorer, Mauvais}
    {
      ActionUne(Ignorer, r);
      JeuxDoux(r);
    }
  }

  lemma EtapeLocale(l: string)
    requires Distribution(l)
    ensures EtapeDe(l) == Locale
  {
  }

  /** The three stacks of Rocky keep the door under the control flow of PAM. */
  lemma GabaritVrai(g: seq<string>)
    requires g in {PILE_LOGIN_ROCKY, PILE_SSHD_ROCKY, PILE_GDM_ROCKY}
    ensures PorteFranche(Lignes(Joindre(g)))
  {
    hide Lignes, Joindre, PorteVraie, PremierModule, LigneAuth, EtapeDe, Distribution;
    var ls := Lignes(Joindre(g));
    var c, m, p, j := if g == PILE_GDM_ROCKY then CONTROLE_BAD else CONTROLE_DIE,
                      if g == PILE_SSHD_ROCKY then SSH else LOGIN,
                      if g == PILE_LOGIN_ROCKY then "system-auth" else "password-auth",
                      if g == PILE_GDM_ROCKY then 4 else 3;
    TeteDuGabarit(g, j);
    assert g[2] == LigneAuth(HUIT, c, m) && g[j] == AUTH + SUBSTACK + p;
    assert g == PILE_GDM_ROCKY ==> g[3] == LigneAuth(HUIT, CONTROLE_BAD, PERMIT);
    SubstackDistribution(p);
    EtapeLivree(HUIT, c, m, "");
    EtapeLivree(HUIT, CONTROLE_BAD, PERMIT, "");
    assert LigneAuth(HUIT, c, m) + "" == LigneAuth(HUIT, c, m);
    assert LigneAuth(HUIT, CONTROLE_BAD, PERMIT) + "" == LigneAuth(HUIT, CONTROLE_BAD, PERMIT);
    PremierDuGabarit(ls, c, m);
    ControlesDistincts();
    forall k | 2 < k < j ensures EtapeDe(ls[k]) == Appel(JEU_BAD) {
      assert k == 3 && g == PILE_GDM_ROCKY && ls[k] == g[k] == LigneAuth(HUIT, CONTROLE_BAD, PERMIT);
    }
    LivreeVraie(ls, 2, j);
  }

  /** The head of a template is read back. */
  lemma TeteDuGabarit(g: seq<string>, j: nat)
    requires g in {PILE_LOGIN_ROCKY, PILE_SSHD_ROCKY, PILE_GDM_ROCKY} && j == if g == PILE_GDM_ROCKY then 4 else 3
    ensures j < |Lignes(Joindre(g))| && forall k | 0 <= k <= j :: Lignes(Joindre(g))[k] == g[k]
    ensures g[0] == PAM && g[1] == MARQUE_PAM
  {
    hide Lignes, Joindre, LigneAuth, UneLigne;
    LignesDuGabarit();
    LignesTete(g, j + 1);
    var l := Lignes(Joindre(g));
    assert forall k | 0 <= k <= j :: l[..j + 1][k] == l[k] && g[..j + 1][k] == g[k];
  }

  lemma LignesDuGabarit()
    ensures UneLigne(PAM) && UneLigne(MARQUE_PAM)
    ensures UneLigne(LigneAuth(HUIT, CONTROLE_DIE, LOGIN)) && UneLigne(LigneAuth(HUIT, CONTROLE_DIE, SSH))
    ensures UneLigne(LigneAuth(HUIT, CONTROLE_BAD, LOGIN)) && UneLigne(LigneAuth(HUIT, CONTROLE_BAD, PERMIT))
    ensures UneLigne(AUTH + SUBSTACK + "system-auth") && UneLigne(AUTH + SUBSTACK + "password-auth")
  {
    hide LigneAuth, UneLigne, Distribution;
    TeteUneLigne();
    SubstackDistribution("system-auth");
    SubstackDistribution("password-auth");
    MotsUneLigne();
    LigneAuthUneLigne(HUIT, CONTROLE_DIE, LOGIN);
    LigneAuthUneLigne(HUIT, CONTROLE_DIE, SSH);
    LigneAuthUneLigne(HUIT, CONTROLE_BAD, LOGIN);
    LigneAuthUneLigne(HUIT, CONTROLE_BAD, PERMIT);
  }

  lemma MotsUneLigne()
    ensures UneLigne(LOGIN) && UneLigne(SSH) && UneLigne(PERMIT)
  {
  }

  lemma PremierDuGabarit(ls: seq<string>, c: string, m: string)
    requires |ls| > 2 && ls[0] == PAM && ls[1] == MARQUE_PAM && ls[2] == LigneAuth(HUIT, c, m)
    requires c in {CONTROLE_DIE, CONTROLE_BAD} && m in {LOGIN, SSH}
    ensures PremierModule(ls, 2)
  {
    hide ChargeVaultaire, LigneAuth;
    MotsPropres();
    LigneAuthCharge(HUIT, c, m, "");
    assert LigneAuth(HUIT, c, m) + "" == LigneAuth(HUIT, c, m);
    Diese();
    PasAuth(PAM);
    PasAuth(MARQUE_PAM);
  }

  lemma EtapeLivree(b: string, c: string, m: string, fin: string)
    requires b in {"    ", HUIT} && c in {CONTROLE_DIE, CONTROLE_BAD} && m in {LOGIN, SSH, PERMIT}
    requires fin in {"", PileDebian.SUFFIXE}
    ensures EtapeDe(LigneAuth(b, c, m) + fin) == Appel(if c == CONTROLE_DIE then JEU_DIE else JEU_BAD)
  {
    hide EtapeDe, EstBlanc;
    var l, suite := LigneAuth(b, c, m) + fin, "    " + m + fin;
    assert l == "auth" + b + "[" + c + "]" + suite;
    MotsPropres();
    QuatreBlancs();
    CrochetsAbsents(c);
    FinNonBlanche(m, fin);
    assert l[|l| - 1] == (m + fin)[|m + fin| - 1];
    EtapeCrochets(l, b, c, suite);
    ControleLu(c);
  }

  lemma QuatreBlancs()
    ensures ToutBlanc("    ")
  {
  }

  lemma FinNonBlanche(m: string, fin: string)
    requires m in {LOGIN, SSH, PERMIT} && fin in {"", PileDebian.SUFFIXE}
    ensures !EstBlanc((m + fin)[|m + fin| - 1])
  {
    assert LOGIN[|LOGIN| - 1] == 'o' && SSH[|SSH| - 1] == 'o' && PERMIT[|PERMIT| - 1] == 'o';
    assert fin != "" ==> (m + fin)[|m + fin| - 1] == PileDebian.SUFFIXE[|PileDebian.SUFFIXE| - 1];
    DernierNonBlanc(LOGIN, fin);
    assert (LOGIN + fin)[|LOGIN + fin| - 1] == if fin == "" then 'o' else fin[|fin| - 1];
  }

  /** So does every Debian stack branched by the agent, whatever else it holds, unless an auth line of the
      administrator above the first common-auth already loads a module of Vaultaire. */
  lemma BrancheeVraie(ls: seq<string>, auth: string, session: string)
    requires AuthLivree(auth) && (session == "" || session == SESSION) && PileDebian.Branchable(ls)
    requires forall k | 0 <= k < Premier(PileDebian.Reste(ls), PileDebian.CommonAuth) ::
               !ChargeVaultaire(PileDebian.Reste(ls)[k])
    ensures PorteFranche(PileDebian.Branchee(ls, auth, session))
  {
    hide *;
    PileGardeLaPorte(ls, auth, session);
    var r := PileDebian.Branchee(ls, auth, session);
    var d: nat :| PremierModule(r, d) && d + 1 < |r| && r[d] == auth + PileDebian.SUFFIXE && Distribution(r[d + 1]);
    AuthLivreeEtape(auth);
    LivreeVraie(r, d, d + 1);
    Franche(r, d);
  }

  lemma AuthLivreeEtape(auth: string)
    requires AuthLivree(auth)
    ensures EtapeDe(auth + PileDebian.SUFFIXE) in {Appel(JEU_DIE), Appel(JEU_BAD)}
  {
    hide EtapeDe, LigneAuth;
    EtapeLivree("    ", CONTROLE_DIE, LOGIN, PileDebian.SUFFIXE);
    EtapeLivree("    ", CONTROLE_DIE, SSH, PileDebian.SUFFIXE);
    EtapeLivree("    ", CONTROLE_BAD, LOGIN, PileDebian.SUFFIXE);
  }

  lemma Franche(ls: seq<string>, d: nat)
    requires PremierModule(ls, d) && PorteVraie(ls, d)
    ensures PorteFranche(ls)
  {
  }

  // --- a stack the check accepts and that closes the door -----------------------------------------

  const SAUTE := "auth" + " " + "[" + "default=1" + "]" + " pam_x.so"

  /** A line of the administrator that passes over the next module stands between the two: the check accepts
      the stack, and no local account ever reaches the distribution. */
  lemma SauteExemple() returns (ls: seq<string>)
    ensures PorteOuverte(ls) && PremierModule(ls, 0)
    ensures forall s: Aleas :: Marche(Etapes(ls, 0), 0, s) == Refuse
  {
    hide EtapeDe, Distribution, LigneAuth, Coupe, ChargeVaultaire, Controle, Contient, ActionPour;
    var v, p := LigneAuth(HUIT, CONTROLE_BAD, LOGIN), AUTH + SUBSTACK + "system-auth";
    ls := [v, SAUTE, p];
    MotsPropres();
    LigneAuthCharge(HUIT, CONTROLE_BAD, LOGIN, "");
    EtapeLivree(HUIT, CONTROLE_BAD, LOGIN, "");
    assert v + "" == v;
    ControleIgnore();
    SubstackDistribution("system-auth");
    SauteLue();
    assert PremierModule(ls, 0) && Atteint(ls, 0, 2);
    var es := Etapes(ls, 0);
    JeuxDoux("ignore");
    EtapeLocale(p);
    assert es[0] == Appel([Paire(DEFAUT, Ignorer)]) && es[1] == Appel([Paire(DEFAUT, Saut(1))]);
    TroisEtapes(es);
  }

  lemma TroisEtapes(es: seq<Etape>)
    requires |es| == 3 && es[0] == Appel([Paire(DEFAUT, Ignorer)]) && es[1] == Appel([Paire(DEFAUT, Saut(1))])
    requires !es[2].Absente?
    ensures forall s: Aleas :: Marche(es, 0, s) == Refuse
  {
    forall r: Code
      ensures ActionPour([Paire(DEFAUT, Ignorer)], r) == Ignorer && ActionPour([Paire(DEFAUT, Saut(1))], r) == Saut(1)
    {
      ActionUne(Ignorer, r);
      ActionUne(Saut(1), r);
    }
    hide ActionPour;
    assert Passer(es, 2, 1) == Passer(es, 3, 0) == 3;
    forall s: Aleas ensures Marche(es, 0, s) == Refuse {
      assert Marche(es, 3, s) == Refuse;
      assert Marche(es, 1, s) == Marche(es, 3, s);
      assert Marche(es, 0, s) == Marche(es, 1, s);
    }
  }

  lemma SauteLue()
    ensures EtapeDe(SAUTE) == Appel([Paire(DEFAUT, Saut(1))]) && !Coupe(SAUTE)
  {
    hide EtapeDe, Jeu, Controle, Contient;
    BlancsDuSaut();
    EtapeCrochets(SAUTE, " ", "default=1", " pam_x.so");
    SauteJeu();
    ControleEntreCrochets(SAUTE, " ", "default=1", " pam_x.so");
    CrochetsNets(SAUTE, " ", "default=1", " pam_x.so");
    SautNeCoupePas();
  }

  lemma SauteJeu()
    ensures Jeu("default=1") == [Paire(DEFAUT, Saut(1))]
  {
    hide LirePaires, LireAction, EstBlanc;
    var c := "default=1";
    assert c == "" + (DEFAUT + ("=" + ("1" + "")));
    UnLu();
    PaireLue("", DEFAUT, "1", Saut(1), "");
    VideLu();
    assert [Paire(DEFAUT, Saut(1))] + [] == [Paire(DEFAUT, Saut(1))];
    assert Minuscules(c)[0] == 'd';
  }

  lemma UnLu()
    ensures LireAction("1" + "") == Some((Saut(1), 1)) && !EstBlanc('1')
  {
    assert "1" + "" == "1";
    assert ChiffresEnTete("1") == "1" && ChiffresLus("1") == 1;
  }

  lemma VideLu()
    ensures LirePaires("") == Some([])
  {
  }

  lemma BlancsDuSaut()
    ensures ToutBlanc(" ") && !EstBlanc(SAUTE[|SAUTE| - 1]) && '[' !in "default=1" && ']' !in "default=1"
    ensures LigneEntreCrochets(SAUTE, " ", "default=1", " pam_x.so")
  {
    assert SAUTE[|SAUTE| - 1] == " pam_x.so"[8] == 'o';
  }

  lemma SautNeCoupePas()
    ensures "[" + "default=1" + "]" != "requisite" && !Contient("[" + "default=1" + "]", "=die")
  {
    var s := "[" + "default=1" + "]";
    assert s[0] == '[';
    forall i: nat | i <= |s| ensures !SousMot(s, i, "=die") { DieLettres(s, i); }
  }
}
