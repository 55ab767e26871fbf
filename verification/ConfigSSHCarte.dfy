/** The ssh configuration of a user behaves as a map from alias to entry, beside the lines of the user. */
module ConfigSSHCarte {
  import opened Options
  import opened Texte
  import opened ConfTextes
  import opened Blocs
  import opened BlocsExtraits
  import opened ConfigSSH

  // --- what such a file is made of -----------------------------------------------------------

  datatype Morceau = Libre(ligne: string) | Bloc(alias: string, corps: seq<string>)

  function LignesDe(m: Morceau): (l: seq<string>)
    ensures l != []
  {
    match m
    case Libre(l) => [l]
    case Bloc(a, c) => [Debut(a)] + c + [Fin(a)]
  }

  function Rendu(ms: seq<Morceau>): seq<string> {
    if ms == [] then [] else LignesDe(ms[0]) + Rendu(ms[1..])
  }

  /** No marker of any alias. */
  ghost predicate SansBalise(l: string) {
    forall a: string :: TrimSpace(l) != Debut(a) && TrimSpace(l) != Fin(a)
  }

  ghost predicate Propre(m: Morceau) {
    match m
    case Libre(l) => UneLigne(l) && SansBalise(l)
    case Bloc(a, c) => UneLigne(a) && forall i | 0 <= i < |c| :: UneLigne(c[i]) && SansBalise(c[i])
  }

  ghost predicate Sain(ms: seq<Morceau>) { forall i | 0 <= i < |ms| :: Propre(ms[i]) }

  /** The pieces, the entry of one alias apart. */
  function Sans(ms: seq<Morceau>, alias: string): (r: seq<Morceau>)
    ensures forall m | m in r :: m in ms && !(m.Bloc? && m.alias == alias)
  {
    if ms == [] then []
    else (if ms[0].Bloc? && ms[0].alias == alias then [] else [ms[0]]) + Sans(ms[1..], alias)
  }

  /** The pieces, the empty lines at the end apart. */
  function SansVides(ms: seq<Morceau>): (r: seq<Morceau>)
    ensures r <= ms && (r == [] || r[|r| - 1] != Libre(""))
  {
    if ms != [] && ms[|ms| - 1] == Libre("") then SansVides(ms[..|ms| - 1]) else ms
  }

  predicate Blancs(ms: seq<Morceau>) { forall i | 0 <= i < |ms| :: ms[i].Libre? && ToutBlanc(ms[i].ligne) }

  /** The file after an operation, on pieces. */
  function ApresOperation(ms: seq<Morceau>, op: Operation, home: string): (r: seq<Morceau>) {
    if Refusee(op) then ms
    else
      var s := SansVides(Sans(ms, op.alias));
      match op
      case Retirer(_) => if Blancs(s) then [Libre("")] else s + [Libre("")]
      case Poser(alias, h) =>
        var e := Bloc(alias, Entree(alias, h, home));
        if Blancs(s) then [e, Libre("")] else s + [Libre(""), e, Libre("")]
  }

  /** What the map holds for an alias. */
  function Valeur(ms: seq<Morceau>, alias: string): Option<seq<string>> {
    if ms == [] then None
    else if ms[0].Bloc? && ms[0].alias == alias then Some(ms[0].corps)
    else Valeur(ms[1..], alias)
  }

  /** The lines of the user that say something, in order. */
  function Utiles(ms: seq<Morceau>): seq<string> {
    if ms == [] then []
    else (if ms[0].Libre? && !ToutBlanc(ms[0].ligne) then [ms[0].ligne] else []) + Utiles(ms[1..])
  }

  // --- the markers ------------------------------------------------------------------------------

  lemma BalisesDistinctes(a: string, b: string)
    ensures Debut(a) != Fin(b)
    ensures Debut(a) == Debut(b) ==> a == b
    ensures Fin(a) == Fin(b) ==> a == b
  {
    assert Debut(a)[2] == '>' && Fin(b)[2] == '<';
    assert Debut(a)[|OUVRE|..|Debut(a)| - 4] == a && Debut(b)[|OUVRE|..|Debut(b)| - 4] == b;
    assert Fin(a)[|FERME|..|Fin(a)| - 4] == a && Fin(b)[|FERME|..|Fin(b)| - 4] == b;
  }

  lemma BalisesNettes(a: string)
    ensures TrimSpace(Debut(a)) == Debut(a) && TrimSpace(Fin(a)) == Fin(a)
    ensures !ToutBlanc(Debut(a)) && Fin(a) != ""
  {
    hide TrimSpace;
    var d, f := Debut(a), Fin(a);
    assert d[0] == '#' && d[|d| - 1] == '>' && f[0] == '#' && f[|f| - 1] == '<';
    assert !EstBlanc('#') && !EstBlanc('>') && !EstBlanc('<');
    TrimNette(d);
    TrimNette(f);
  }

  lemma BalisesUneLigne(a: string)
    requires UneLigne(a)
    ensures UneLigne(Debut(a)) && UneLigne(Fin(a))
  {
  }

  // --- reading the lines ----------------------------------------------------------------------

  /** A line is no marker of this alias. */
  ghost predicate Neutre(l: string, a: string) { TrimSpace(l) != Debut(a) && TrimSpace(l) != Fin(a) }

  lemma {:induction false} HorsBlocNeutre(c: seq<string>, suite: seq<string>, a: string, dedans: bool)
    requires forall i | 0 <= i < |c| :: Neutre(c[i], a)
    ensures HorsBloc(c + suite, Debut(a), Fin(a), dedans) ==
        (if dedans then [] else c) + HorsBloc(suite, Debut(a), Fin(a), dedans)
  {
    hide TrimSpace;
    if c == [] {
      assert c + suite == suite;
    } else {
      assert (c + suite)[0] == c[0] && (c + suite)[1..] == c[1..] + suite;
      HorsBlocNeutre(c[1..], suite, a, dedans);
      assert [c[0]] + c[1..] == c;
    }
  }

  /** Every line of a piece that is not the entry of the alias is neutral for it. */
  lemma MorceauNeutre(m: Morceau, a: string)
    requires Propre(m) && !(m.Bloc? && m.alias == a)
    ensures forall i | 0 <= i < |LignesDe(m)| :: Neutre(LignesDe(m)[i], a)
  {
    hide TrimSpace, Debut, Fin;
    match m
    case Libre(l) =>
    case Bloc(b, c) =>
      BalisesNettes(b);
      BalisesDistinctes(b, a);
      BalisesDistinctes(a, b);
  }

  lemma EntreeRetiree(a: string, c: seq<string>, suite: seq<string>)
    requires forall i | 0 <= i < |c| :: Neutre(c[i], a)
    ensures HorsBloc([Debut(a)] + c + [Fin(a)] + suite, Debut(a), Fin(a), false) ==
        HorsBloc(suite, Debut(a), Fin(a), false)
  {
    hide TrimSpace, Debut, Fin;
    var l := [Debut(a)] + c + [Fin(a)] + suite;
    var r := [Fin(a)] + suite;
    BalisesNettes(a);
    BalisesDistinctes(a, a);
    assert l[0] == Debut(a) && l[1..] == c + r;
    HorsBlocNeutre(c, r, a, true);
    assert r[0] == Fin(a) && r[1..] == suite;
  }

  /** Taking an alias out of the text takes its piece out, and nothing else. */
  lemma {:induction false} HorsBlocRendu(ms: seq<Morceau>, a: string)
    requires Sain(ms)
    ensures HorsBloc(Rendu(ms), Debut(a), Fin(a), false) == Rendu(Sans(ms, a))
  {
    hide TrimSpace, Debut, Fin, HorsBloc;
    if ms == [] {
      HorsBlocVide(a);
    } else {
      HorsBlocRendu(ms[1..], a);
      var l := LignesDe(ms[0]);
      if ms[0].Bloc? && ms[0].alias == a {
        assert forall i | 0 <= i < |ms[0].corps| :: Neutre(ms[0].corps[i], a);
        EntreeRetiree(a, ms[0].corps, Rendu(ms[1..]));
        assert [] + Sans(ms[1..], a) == Sans(ms[1..], a);
      } else {
        MorceauNeutre(ms[0], a);
        HorsBlocNeutre(l, Rendu(ms[1..]), a, false);
        assert ([ms[0]] + Sans(ms[1..], a))[1..] == Sans(ms[1..], a);
      }
    }
  }

  lemma HorsBlocVide(a: string)
    ensures HorsBloc([], Debut(a), Fin(a), false) == []
  {
  }

  lemma EntreeExtraite(a: string, c: seq<string>, suite: seq<string>)
    requires Propre(Bloc(a, c))
    ensures Extraire(LignesDe(Bloc(a, c)) + suite, Debut(a), Fin(a)) == Some(Join(c))
  {
    hide TrimSpace, Debut, Fin, Join, Extraire;
    BalisesNettes(a);
    assert forall i | 0 <= i < |c| :: TrimSpace(c[i]) != Fin(a);
    ExtraireBlocPose([], Debut(a), c, [Fin(a)] + suite, Debut(a), Fin(a));
    assert [] + [Debut(a)] + c + ([Fin(a)] + suite) == LignesDe(Bloc(a, c)) + suite;
  }

  /** Reading an alias back gives the body of its piece, or its absence. */
  lemma {:induction false} ExtraireRendu(ms: seq<Morceau>, a: string)
    requires Sain(ms)
    ensures Extraire(Rendu(ms), Debut(a), Fin(a)) == match Valeur(ms, a) case None => None case Some(c) => Some(Join(c))
  {
    hide TrimSpace, Debut, Fin, Join, LignesDe, Propre;
    if ms != [] {
      ExtraireRendu(ms[1..], a);
      if ms[0].Bloc? && ms[0].alias == a {
        EntreeExtraite(a, ms[0].corps, Rendu(ms[1..]));
      } else {
        MorceauNeutre(ms[0], a);
        ExtraireApres(LignesDe(ms[0]), Rendu(ms[1..]), Debut(a), Fin(a));
      }
    }
  }

  // --- from lines to text ------------------------------------------------------------------------

  /** The text is that of these pieces. */
  ghost predicate Represente(contenu: string, ms: seq<Morceau>) {
    Sain(ms) && ms != [] && contenu == Join(Rendu(ms))
  }

  lemma {:induction false} RenduConcat(a: seq<Morceau>, b: seq<Morceau>)
    ensures Rendu(a + b) == Rendu(a) + Rendu(b)
  {
    hide LignesDe;
    if a == [] {
      assert a + b == b;
      assert [] + Rendu(b) == Rendu(b);
    } else {
      RenduConcat(a[1..], b);
      assert (a + b)[0] == a[0] && (a + b)[1..] == a[1..] + b;
      var x, y, z := LignesDe(a[0]), Rendu(a[1..]), Rendu(b);
      assert x + (y + z) == x + y + z;
    }
  }

  lemma {:induction false} RenduLignes(ms: seq<Morceau>)
    requires Sain(ms)
    ensures DesLignes(Rendu(ms)) && |Rendu(ms)| >= |ms|
  {
    hide SansBalise, Debut, Fin;
    if ms != [] {
      RenduLignes(ms[1..]);
      match ms[0]
      case Libre(_) =>
      case Bloc(a, c) => BalisesUneLigne(a);
    }
  }

  lemma LignesLues(contenu: string, ms: seq<Morceau>)
    requires Represente(contenu, ms)
    ensures Split(contenu) == Rendu(ms)
  {
    RenduLignes(ms);
    SplitJoin(Rendu(ms));
  }

  lemma {:induction false} JoinFin(l: seq<string>, x: string)
    ensures Join(l + [x]) == if l == [] then x else Join(l) + "\n" + x
  {
    if |l| > 1 {
      JoinFin(l[1..], x);
      assert (l + [x])[1..] == l[1..] + [x];
      var a, b := l[0] + "\n", Join(l[1..]);
      assert a + (b + "\n" + x) == a + b + "\n" + x;
    } else if |l| == 1 {
      assert (l + [x])[1..] == [x];
    }
  }

  lemma SansFinsSaut(s: string)
    ensures SansFins(s + "\n") == SansFins(s)
  {
    assert (s + "\n")[..|s|] == s;
  }

  lemma SansFinsPlein(s: string)
    requires s != "" && s[|s| - 1] != '\n'
    ensures SansFins(s) == s
  {
  }

  /** Dropping the line breaks at the end is dropping the empty lines at the end. */
  lemma {:induction false} SansFinsRendu(ms: seq<Morceau>)
    requires Sain(ms)
    ensures SansFins(Join(Rendu(ms))) == Join(Rendu(SansVides(ms)))
  {
    hide SansBalise, Debut, Fin, Rendu, Join, SansFins;
    if ms == [] {
      RenduVide();
    } else {
      var n := |ms| - 1;
      var r := Rendu(ms[..n]);
      assert ms == ms[..n] + [ms[n]];
      RenduConcat(ms[..n], [ms[n]]);
      RenduUn(ms[n]);
      var l := LignesDe(ms[n]);
      if ms[n] == Libre("") {
        SansFinsRendu(ms[..n]);
        JoinFin(r, "");
        SansFinsVide(r);
      } else {
        DerniereLigne(ms[n]);
        var k := |l| - 1;
        assert r + l == r + l[..k] + [l[k]];
        JoinFin(r + l[..k], l[k]);
        JoinPlein(r + l[..k], l[k]);
      }
    }
  }

  lemma RenduVide()
    ensures Rendu([]) == [] && Join([]) == "" && SansFins("") == ""
  {
  }

  lemma RenduUn(m: Morceau)
    ensures Rendu([m]) == LignesDe(m)
  {
    assert [m][1..] == [];
  }

  lemma SansFinsVide(r: seq<string>)
    ensures SansFins(if r == [] then "" else Join(r) + "\n" + "") == SansFins(Join(r))
  {
    SansFinsSaut(Join(r));
    assert Join(r) + "\n" + "" == Join(r) + "\n";
  }

  lemma JoinPlein(r: seq<string>, x: string)
    requires x != "" && UneLigne(x)
    ensures SansFins(if r == [] then x else Join(r) + "\n" + x) == if r == [] then x else Join(r) + "\n" + x
  {
    SansFinsPlein(if r == [] then x else Join(r) + "\n" + x);
  }

  /** The last line of a piece that is not an empty line is not empty. */
  lemma DerniereLigne(m: Morceau)
    requires Propre(m) && m != Libre("")
    ensures var l := LignesDe(m); l[|l| - 1] != "" && UneLigne(l[|l| - 1])
  {
    if m.Bloc? {
      BalisesNettes(m.alias);
      BalisesUneLigne(m.alias);
    }
  }

  lemma {:induction false} JoinBlanc(l: seq<string>)
    ensures ToutBlanc(Join(l)) <==> forall i | 0 <= i < |l| :: ToutBlanc(l[i])
  {
    if |l| > 1 {
      JoinBlanc(l[1..]);
      var b := Join(l[1..]);
      BlancConcat(l[0] + "\n", b);
      BlancConcat(l[0], "\n");
      assert forall i | 0 <= i < |l| - 1 :: l[1..][i] == l[i + 1];
      assert (forall i | 0 <= i < |l| :: ToutBlanc(l[i])) <==> ToutBlanc(l[0]) && forall i | 0 <= i < |l[1..]| ::
          ToutBlanc(l[1..][i]);
    }
  }

  lemma BlancConcat(a: string, b: string)
    ensures ToutBlanc(a + b) <==> ToutBlanc(a) && ToutBlanc(b)
    ensures ToutBlanc("\n")
  {
    var s := a + b;
    assert forall i | 0 <= i < |a| :: s[i] == a[i];
    assert forall i | 0 <= i < |b| :: s[|a| + i] == b[i];
  }

  /** The text says nothing exactly when its pieces are blank lines. */
  lemma {:induction false} RenduBlanc(ms: seq<Morceau>)
    ensures (forall i | 0 <= i < |Rendu(ms)| :: ToutBlanc(Rendu(ms)[i])) <==> Blancs(ms)
  {
    hide LignesDe, ToutBlanc;
    if ms != [] {
      RenduBlanc(ms[1..]);
      LignesBlanches(LignesDe(ms[0]), Rendu(ms[1..]));
      MorceauBlanc(ms[0]);
      assert Rendu(ms) == LignesDe(ms[0]) + Rendu(ms[1..]);
      assert forall i | 0 <= i < |ms| - 1 :: ms[1..][i] == ms[i + 1];
      assert Blancs(ms) <==> (ms[0].Libre? && ToutBlanc(ms[0].ligne)) && Blancs(ms[1..]);
    }
  }

  lemma LignesBlanches(l: seq<string>, r: seq<string>)
    ensures (forall i | 0 <= i < |l + r| :: ToutBlanc((l + r)[i]))
            <==> (forall i | 0 <= i < |l| :: ToutBlanc(l[i])) && (forall i | 0 <= i < |r| :: ToutBlanc(r[i]))
  {
    hide ToutBlanc;
    var t := l + r;
    assert forall i | 0 <= i < |r| :: t[|l| + i] == r[i];
    assert forall i | 0 <= i < |l| :: t[i] == l[i];
  }

  lemma MorceauBlanc(m: Morceau)
    ensures (forall i | 0 <= i < |LignesDe(m)| :: ToutBlanc(LignesDe(m)[i])) <==> m.Libre? && ToutBlanc(m.ligne)
  {
    hide Debut, Fin, ToutBlanc;
    if m.Bloc? {
      BalisesNettes(m.alias);
      assert LignesDe(m)[0] == Debut(m.alias);
    } else {
      assert LignesDe(m)[0] == m.ligne;
    }
  }

  lemma TexteBlanc(ms: seq<Morceau>)
    ensures TrimSpace(Join(Rendu(ms))) == "" <==> Blancs(ms)
  {
    TrimToutBlanc(Join(Rendu(ms)));
    JoinBlanc(Rendu(ms));
    RenduBlanc(ms);
  }

  // --- one operation -----------------------------------------------------------------------------

  predicate HoteUneLigne(h: Hote) {
    UneLigne(h.hostname) && UneLigne(h.user) && UneLigne(h.port) && UneLigne(h.proxyJump) && UneLigne(h.identityFile)
  }

  /** No parameter holds a line break. */
  predicate Nets(op: Operation, home: string) {
    UneLigne(op.alias) && UneLigne(home) && (op.Poser? ==> HoteUneLigne(op.hote))
  }

  /** A line that starts with this word is no marker. */
  lemma MotSansBalise(b: string, m: string, suite: string)
    requires ToutBlanc(b) && m != "" && !EstBlanc(m[0]) && m[0] != '#'
    ensures SansBalise(b + m + suite)
  {
    var s := m + suite;
    assert b + m + suite == b + s;
    TrimGaucheBlancs(b, s);
    assert s[0] == m[0] && TrimGauche(s) == s;
    TrimDroiteGarde(s);
    assert TrimSpace(b + s)[0] == m[0];
    forall a: string ensures Debut(a)[0] == '#' && Fin(a)[0] == '#' {}
  }

  lemma EntreePropre(alias: string, h: Hote, home: string)
    requires UneLigne(alias) && UneLigne(home) && HoteUneLigne(h)
    ensures Propre(Bloc(alias, Entree(alias, h, home)))
  {
    hide SansBalise, UneLigne, SansBarre;
    var e := Entree(alias, h, home);
    LigneHote("", "Host", " ", alias);
    LigneHote("    ", "HostName", " ", h.hostname);
    LigneHote("    ", "User", " ", h.user);
    LigneHote("    ", "Port", " ", h.port);
    LigneHote("    ", "ProxyJump", " ", h.proxyJump);
    BarreUneLigne(home, h.identityFile);
    LigneHote("    ", "IdentityFile", " ", home + "/" + SansBarre(h.identityFile));
    Litteraux(alias, h, home);
  }

  lemma BarreUneLigne(home: string, v: string)
    requires UneLigne(home) && UneLigne(v)
    ensures UneLigne(home + "/" + SansBarre(v))
  {
  }

  lemma LigneHote(b: string, m: string, e: string, v: string)
    requires b in {"", "    "} && m in {"Host", "HostName", "User", "Port", "ProxyJump", "IdentityFile"} &&
        e == " " && UneLigne(v)
    ensures UneLigne(b + m + (e + v)) && SansBalise(b + m + (e + v))
  {
    hide SansBalise;
    assert m[0] in {'H', 'U', 'P', 'I'};
    MotSansBalise(b, m, e + v);
  }

  lemma Litteraux(alias: string, h: Hote, home: string)
    ensures "Host " + alias == "" + "Host" + (" " + alias)
    ensures "    HostName " + h.hostname == "    " + "HostName" + (" " + h.hostname)
    ensures "    User " + h.user == "    " + "User" + (" " + h.user)
    ensures "    Port " + h.port == "    " + "Port" + (" " + h.port)
    ensures "    ProxyJump " + h.proxyJump == "    " + "ProxyJump" + (" " + h.proxyJump)
    ensures var v := SansBarre(h.identityFile);
            "    IdentityFile " + home + "/" + v == "    " + "IdentityFile" + (" " + (home + "/" + v))
  {
    hide SansBarre;
  }

  lemma {:induction false} JoinConcat(a: seq<string>, b: seq<string>)
    requires a != [] && b != []
    ensures Join(a + b) == Join(a) + "\n" + Join(b)
  {
    if |a| > 1 {
      JoinConcat(a[1..], b);
      assert (a + b)[1..] == a[1..] + b;
      var x, y, z := a[0] + "\n", Join(a[1..]), "\n" + Join(b);
      assert x + (y + z) == x + y + z;
    } else {
      assert (a + b)[1..] == b;
    }
  }

  lemma SansFinsDeuxFois(s: string)
    ensures SansFins(SansFins(s)) == SansFins(s)
  {
  }

  /** The text an operation starts from. */
  lemma Reconstruit(contenu: string, ms: seq<Morceau>, a: string)
    requires Represente(contenu, ms)
    ensures var s := SansVides(Sans(ms, a));
            && Sain(s)
            && SansBloc(contenu, Debut(a), Fin(a)) == Join(Rendu(s))
            && SansFins(Join(Rendu(s))) == Join(Rendu(s))
            && (TrimSpace(Join(Rendu(s))) == "" <==> Blancs(s))
  {
    hide Rendu, SansFins, TrimSpace, Debut, Fin, Join, HorsBloc, Propre, Split;
    var m := Sans(ms, a);
    var s := SansVides(m);
    LignesLues(contenu, ms);
    HorsBlocRendu(ms, a);
    assert forall i | 0 <= i < |m| :: m[i] in m;
    assert forall i | 0 <= i < |s| :: s[i] == m[i];
    SansFinsRendu(m);
    SansFinsDeuxFois(Join(Rendu(m)));
    TexteBlanc(s);
  }

  lemma TexteRetire(s: seq<Morceau>)
    requires !Blancs(s)
    ensures Join(Rendu(s)) + "\n" == Join(Rendu(s + [Libre("")]))
  {
    hide Join;
    RenduConcat(s, [Libre("")]);
    RenduUn(Libre(""));
    JoinFin(Rendu(s), "");
    RenduNonVide(s);
    assert Join(Rendu(s)) + "\n" + "" == Join(Rendu(s)) + "\n";
  }

  lemma RenduNonVide(s: seq<Morceau>)
    requires s != []
    ensures Rendu(s) != []
  {
  }

  lemma TexteDuBloc(a: string, c: seq<string>)
    ensures Joindre([Debut(a)] + c + [Fin(a)]) == Join(Rendu([Bloc(a, c), Libre("")]))
  {
    hide Join, Debut, Fin, Rendu;
    var l := [Debut(a)] + c + [Fin(a)];
    RenduConcat([Bloc(a, c)], [Libre("")]);
    RenduUn(Bloc(a, c));
    RenduUn(Libre(""));
    assert [Bloc(a, c)] + [Libre("")] == [Bloc(a, c), Libre("")];
    JoinFin(l, "");
    assert Join(l) + "\n" + "" == Join(l) + "\n";
  }

  lemma TextePose(s: seq<Morceau>, e: Morceau)
    requires !Blancs(s)
    ensures Join(Rendu(s)) + "\n\n" + Join(Rendu([e, Libre("")])) == Join(Rendu(s + [Libre(""), e, Libre("")]))
  {
    hide Join, Rendu;
    var t := [e, Libre("")];
    RenduConcat(s, [Libre("")] + t);
    RenduConcat([Libre("")], t);
    RenduUn(Libre(""));
    RenduNonVide(s);
    RenduNonVide(t);
    JoinConcat(Rendu(s), [""] + Rendu(t));
    JoinConcat([""], Rendu(t));
    JoinUn();
    assert [Libre("")] + t == [Libre(""), e, Libre("")];
    var x, y := Join(Rendu(s)), Join(Rendu(t));
    assert x + "\n" + ("" + "\n" + y) == x + "\n\n" + y;
  }

  lemma JoinUn()
    ensures Join([""]) == ""
  {
  }

  lemma LibreVide()
    ensures Propre(Libre("")) && Rendu([Libre("")]) == [""] && Join([""]) == ""
  {
    RenduUn(Libre(""));
    assert TrimSpace("") == "";
    forall a: string ensures Debut(a) != "" && Fin(a) != "" {}
  }

  /** The text after an operation is that of the pieces after it. */
  lemma Etape(contenu: string, ms: seq<Morceau>, op: Operation, home: string)
    requires Represente(contenu, ms) && Nets(op, home)
    ensures Represente(Appliquer(contenu, op, home), ApresOperation(ms, op, home))
  {
    hide Rendu, SansFins, TrimSpace, Debut, Fin, Join, HorsBloc, Propre, Split, SansBloc, Joindre, Entree, Blancs;
    if !Refusee(op) {
      var s := SansVides(Sans(ms, op.alias));
      Reconstruit(contenu, ms, op.alias);
      LibreVide();
      match op
      case Retirer(_) =>
        if !Blancs(s) { TexteRetire(s); }
      case Poser(alias, h) =>
        var e := Bloc(alias, Entree(alias, h, home));
        EntreePropre(alias, h, home);
        TexteDuBloc(alias, Entree(alias, h, home));
        if !Blancs(s) { TextePose(s, e); }
    }
  }

  // --- what an operation does to the map and to the lines of the user ---------------------------

  lemma {:induction false} ValeurConcat(a: seq<Morceau>, b: seq<Morceau>, x: string)
    ensures Valeur(a + b, x) == if Valeur(a, x).Some? then Valeur(a, x) else Valeur(b, x)
    ensures Utiles(a + b) == Utiles(a) + Utiles(b)
  {
    if a == [] {
      assert a + b == b;
      assert [] + Utiles(b) == Utiles(b);
    } else {
      ValeurConcat(a[1..], b, x);
      assert (a + b)[0] == a[0] && (a + b)[1..] == a[1..] + b;
      var t := if a[0].Libre? && !ToutBlanc(a[0].ligne) then [a[0].ligne] else [];
      assert t + (Utiles(a[1..]) + Utiles(b)) == t + Utiles(a[1..]) + Utiles(b);
    }
  }

  lemma {:induction false} ValeurSans(ms: seq<Morceau>, a: string, x: string)
    ensures Valeur(Sans(ms, a), x) == if x == a then None else Valeur(ms, x)
    ensures Utiles(Sans(ms, a)) == Utiles(ms)
  {
    if ms != [] {
      ValeurSans(ms[1..], a, x);
      var t := Sans(ms[1..], a);
      assert [] + t == t;
      if !(ms[0].Bloc? && ms[0].alias == a) { assert ([ms[0]] + t)[1..] == t; }
    }
  }

  lemma {:induction false} ValeurSansVides(ms: seq<Morceau>, x: string)
    ensures Valeur(SansVides(ms), x) == Valeur(ms, x)
    ensures Utiles(SansVides(ms)) == Utiles(ms)
  {
    if ms != [] && ms[|ms| - 1] == Libre("") {
      var n := |ms| - 1;
      ValeurSansVides(ms[..n], x);
      ValeurConcat(ms[..n], [Libre("")], x);
      ValeurVide(x);
      assert ms == ms[..n] + [Libre("")];
    }
  }

  lemma ValeurVide(x: string)
    ensures Valeur([Libre("")], x) == None && Utiles([Libre("")]) == []
  {
  }

  lemma {:induction false} ValeurBlancs(ms: seq<Morceau>, x: string)
    requires Blancs(ms)
    ensures Valeur(ms, x) == None && Utiles(ms) == []
  {
    if ms != [] { ValeurBlancs(ms[1..], x); }
  }

  lemma ValeurEntree(a: string, c: seq<string>, x: string)
    ensures Valeur([Bloc(a, c), Libre("")], x) == if x == a then Some(c) else None
    ensures Utiles([Bloc(a, c), Libre("")]) == []
  {
    assert [Bloc(a, c), Libre("")][1..] == [Libre("")];
    ValeurVide(x);
  }

  /** An operation changes the entry of its alias, and no other; it keeps the lines of the user in order. */
  lemma EtapeCarte(ms: seq<Morceau>, op: Operation, home: string, x: string)
    ensures var r := ApresOperation(ms, op, home);
            && Utiles(r) == Utiles(ms)
            && Valeur(r, x) == (if Refusee(op) || x != op.alias then Valeur(ms, x)
                                else match op case Retirer(_) => None case Poser(a, h) => Some(Entree(a, h, home)))
  {
    hide Entree, Sans, SansVides, Valeur, Utiles, Blancs;
    if !Refusee(op) {
      var s := SansVides(Sans(ms, op.alias));
      ValeurSans(ms, op.alias, x);
      ValeurSansVides(Sans(ms, op.alias), x);
      if Blancs(s) { ValeurBlancs(s, x); }
      ValeurVide(x);
      match op
      case Retirer(_) => ValeurConcat(s, [Libre("")], x);
      case Poser(a, h) =>
        var t := [Bloc(a, Entree(a, h, home)), Libre("")];
        ValeurEntree(a, Entree(a, h, home), x);
        ValeurConcat([Libre("")], t, x);
        ValeurConcat(s, [Libre("")] + t, x);
        assert [Libre("")] + t == [Libre(""), Bloc(a, Entree(a, h, home)), Libre("")];
    }
  }

  // --- histories ------------------------------------------------------------------------------------

  function Jouer(contenu: string, ops: seq<Operation>, home: string): string {
    if ops == [] then contenu else Appliquer(Jouer(contenu, ops[..|ops| - 1], home), ops[|ops| - 1], home)
  }

  type Carte = map<string, seq<string>>

  /** The map a reader would keep. */
  function CarteDe(ops: seq<Operation>, home: string): Carte {
    if ops == [] then map[]
    else
      var c := CarteDe(ops[..|ops| - 1], home);
      var op := ops[|ops| - 1];
      if Refusee(op) then c
      else match op
        case Retirer(a) => c - {a}
        case Poser(a, h) => c[a := Entree(a, h, home)]
  }

  function Cherche(c: Carte, a: string): Option<seq<string>> { if a in c then Some(c[a]) else None }

  function Libres(l: seq<string>): seq<Morceau> { seq(|l|, i requires 0 <= i < |l| => Libre(l[i])) }

  lemma {:induction false} LibresRendu(l: seq<string>, x: string)
    ensures Rendu(Libres(l)) == l && Valeur(Libres(l), x) == None && Utiles(Libres(l)) == NonBlanches(l)
  {
    if l != [] {
      LibresRendu(l[1..], x);
      assert Libres(l)[1..] == Libres(l[1..]);
      assert [l[0]] + l[1..] == l;
    }
  }

  function NonBlanches(l: seq<string>): seq<string> {
    if l == [] then [] else (if !ToutBlanc(l[0]) then [l[0]] else []) + NonBlanches(l[1..])
  }

  /** After any history from a file without markers, the file is made of the lines of the user that say
      something, in order, and of one entry per alias of the map. */
  lemma {:induction false} Histoire(contenu: string, ops: seq<Operation>, home: string) returns (ms: seq<Morceau>)
    requires forall i | 0 <= i < |Split(contenu)| :: SansBalise(Split(contenu)[i])
    requires forall i | 0 <= i < |ops| :: Nets(ops[i], home)
    ensures Represente(Jouer(contenu, ops, home), ms)
    ensures Utiles(ms) == NonBlanches(Split(contenu))
    ensures forall a: string :: Valeur(ms, a) == Cherche(CarteDe(ops, home), a)
  {
    hide Represente, Valeur, Utiles, ApresOperation, Appliquer, Entree, Split, Nets, SansBalise, NonBlanches;
    if ops == [] {
      ms := Depart(contenu);
    } else {
      var n := |ops| - 1;
      var op := ops[n];
      var av := Histoire(contenu, ops[..n], home);
      ms := ApresOperation(av, op, home);
      Etape(Jouer(contenu, ops[..n], home), av, op, home);
      forall a: string
        ensures Utiles(ms) == Utiles(av) && Valeur(ms, a) == Cherche(CarteDe(ops, home), a)
      {
        EtapeCarte(av, op, home, a);
      }
      assert Utiles(ms) == Utiles(av) by { EtapeCarte(av, op, home, ""); }
    }
  }

  lemma Depart(contenu: string) returns (ms: seq<Morceau>)
    requires forall i | 0 <= i < |Split(contenu)| :: SansBalise(Split(contenu)[i])
    ensures Represente(contenu, ms) && Utiles(ms) == NonBlanches(Split(contenu))
    ensures forall a: string :: Valeur(ms, a) == None
  {
    hide Split, SansBalise;
    ms := Libres(Split(contenu));
    JoinSplit(contenu);
    forall a: string ensures Valeur(ms, a) == None { LibresRendu(Split(contenu), a); }
    LibresRendu(Split(contenu), "");
  }

  /** The file refines the map: what is read back for any alias is the last entry set, or nothing. */
  lemma CarteRaffinee(contenu: string, ops: seq<Operation>, home: string, alias: string)
    requires forall i | 0 <= i < |Split(contenu)| :: SansBalise(Split(contenu)[i])
    requires forall i | 0 <= i < |ops| :: Nets(ops[i], home)
    ensures Extraire(Split(Jouer(contenu, ops, home)), Debut(alias), Fin(alias))
            == match Cherche(CarteDe(ops, home), alias) case None => None case Some(c) => Some(Join(c))
  {
    hide Valeur, Utiles, Entree, Nets, SansBalise, NonBlanches, Jouer, CarteDe, Rendu, Join, Split, Propre, Extraire;
    var ms := Histoire(contenu, ops, home);
    LignesLues(Jouer(contenu, ops, home), ms);
    ExtraireRendu(ms, alias);
  }

  // --- setting an entry twice, in any file -------------------------------------------------------

  ghost predicate Neutres(l: seq<string>, a: string) { forall i | 0 <= i < |l| :: Neutre(l[i], a) }

  /** What is left outside the block of an alias holds no marker of that alias. */
  lemma {:induction false} ResteNeutre(l: seq<string>, a: string, dedans: bool)
    requires DesLignes(l)
    ensures Neutres(HorsBloc(l, Debut(a), Fin(a), dedans), a) && DesLignes(HorsBloc(l, Debut(a), Fin(a), dedans))
  {
    hide TrimSpace, Debut, Fin;
    if l != [] {
      ResteNeutre(l[1..], a, true);
      ResteNeutre(l[1..], a, false);
    }
  }

  /** Dropping the line breaks at the end of a text is dropping its last empty lines. */
  lemma {:induction false} SansFinsLignes(l: seq<string>) returns (k: nat)
    requires DesLignes(l)
    ensures k <= |l| && SansFins(Join(l)) == Join(l[..k])
  {
    hide Join, SansFins;
    k := |l|;
    assert l[..k] == l;
    if l == [] {
      RenduVide();
    } else {
      var n := |l| - 1;
      assert l == l[..n] + [l[n]];
      JoinFin(l[..n], l[n]);
      if l[n] == "" {
        k := SansFinsLignes(l[..n]);
        SansFinsVide(l[..n]);
        assert l[..n][..k] == l[..k];
      } else {
        JoinPlein(l[..n], l[n]);
      }
    }
  }

  /** The text outside the block of an alias: lines that hold no marker of it, and no line break at the end. */
  lemma TexteHorsBloc(contenu: string, a: string) returns (l: seq<string>)
    ensures SansBloc(contenu, Debut(a), Fin(a)) == Join(l) && SansFins(Join(l)) == Join(l)
    ensures DesLignes(l) && Neutres(l, a)
  {
    hide Join, SansFins, Debut, Fin, Split, Neutre, HorsBloc, UneLigne;
    JoinSplit(contenu);
    ResteNeutre(Split(contenu), a, false);
    var h := HorsBloc(Split(contenu), Debut(a), Fin(a), false);
    var k := SansFinsLignes(h);
    SansFinsDeuxFois(Join(h));
    l := h[..k];
  }

  /** A file made of such lines, an empty line and the entry of the alias gives those lines back. */
  lemma EntreeOtee(l: seq<string>, a: string, c: seq<string>)
    requires l != [] && DesLignes(l) && Neutres(l, a) && Propre(Bloc(a, c)) && SansFins(Join(l)) == Join(l)
    ensures SansBloc(Join(l) + "\n\n" + Joindre([Debut(a)] + c + [Fin(a)]), Debut(a), Fin(a)) == Join(l)
  {
    hide Join, SansFins, Debut, Fin, Split, HorsBloc, TrimSpace;
    var e := [Debut(a)] + c + [Fin(a)];
    var t := l + [""] + (e + [""]);
    EntreeSeule(a, c);
    TexteAvecEntree(l, e);
    assert DesLignes(t);
    SplitJoin(t);
    VideNeutre(a);
    HorsBlocNeutre(l + [""], e + [""], a, false);
    assert HorsBloc(Split(Join(t)), Debut(a), Fin(a), false) == l + [""] + [""];
    JoinFin(l, "");
    JoinFin(l + [""], "");
    DeuxSauts(Join(l));
  }

  lemma DeuxSauts(s: string)
    ensures SansFins(s + "\n" + "" + "\n" + "") == SansFins(s)
  {
    assert s + "\n" + "" + "\n" + "" == s + "\n" + "\n";
    SansFinsSaut(s + "\n");
    SansFinsSaut(s);
  }

  lemma VideNeutre(a: string)
    ensures Neutre("", a)
  {
    assert TrimSpace("") == "" && Debut(a) != "" && Fin(a) != "";
  }

  /** The lines of an entry, and what is left of a file that holds only it. */
  lemma EntreeSeule(a: string, c: seq<string>)
    requires Propre(Bloc(a, c))
    ensures var e := [Debut(a)] + c + [Fin(a)];
            && DesLignes(e) && Joindre(e) == Join(e + [""])
            && HorsBloc(e + [""], Debut(a), Fin(a), false) == [""]
  {
    hide Debut, Fin, HorsBloc, Join;
    var e := [Debut(a)] + c + [Fin(a)];
    BalisesUneLigne(a);
    JoinFin(e, "");
    assert Join(e) + "\n" + "" == Join(e) + "\n";
    assert forall i | 0 <= i < |c| :: Neutre(c[i], a);
    EntreeRetiree(a, c, [""]);
    VideHorsBloc(a);
  }

  lemma VideHorsBloc(a: string)
    ensures HorsBloc([""], Debut(a), Fin(a), false) == [""]
  {
    VideNeutre(a);
    assert [""][1..] == [];
  }

  lemma TexteAvecEntree(l: seq<string>, e: seq<string>)
    requires l != [] && e != []
    ensures Join(l + [""] + (e + [""])) == Join(l) + "\n\n" + Join(e + [""])
  {
    hide Join;
    JoinConcat(l + [""], e + [""]);
    JoinFin(l, "");
    var x, y := Join(l), Join(e + [""]);
    assert x + "\n" + "" + "\n" + y == x + "\n\n" + y;
  }

  /** Setting the same entry twice in a row is setting it once, whatever the file holds. */
  lemma PoserDeuxFois(contenu: string, op: Operation, home: string)
    requires Nets(op, home) && op.Poser?
    ensures Appliquer(Appliquer(contenu, op, home), op, home) == Appliquer(contenu, op, home)
  {
    hide SansBloc, Join, Joindre, Debut, Fin, Entree, SansFins, TrimSpace, Propre, Neutres;
    if !Refusee(op) {
      var a, c := op.alias, Entree(op.alias, op.hote, home);
      EntreePropre(a, op.hote, home);
      var l := TexteHorsBloc(contenu, a);
      RienAvant(a, c);
      if TrimSpace(Join(l)) != "" {
        LignesDuTexte(l);
        EntreeOtee(l, a, c);
      }
    }
  }

  lemma LignesDuTexte(l: seq<string>)
    requires TrimSpace(Join(l)) != ""
    ensures l != []
  {
    assert TrimSpace("") == "";
  }

  lemma RienAvant(a: string, c: seq<string>)
    requires Propre(Bloc(a, c))
    ensures TrimSpace(SansBloc(Joindre([Debut(a)] + c + [Fin(a)]), Debut(a), Fin(a))) == ""
  {
    hide Debut, Fin, HorsBloc, Split, Joindre, Propre;
    var e := [Debut(a)] + c + [Fin(a)];
    EntreeSeule(a, c);
    assert DesLignes(e + [""]);
    SplitJoin(e + [""]);
    JoinUn();
    RenduVide();
    assert TrimSpace("") == "";
  }
}
