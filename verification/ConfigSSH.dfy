/** The entries of Vaultaire in the ssh configuration of a user, one block per alias
    (appliers_user_extra.go:307-409, verifiers_bloc.go:68-84). */
module ConfigSSH {
  import opened Options
  import opened Texte
  import opened ConfTextes
  import opened Blocs

  // --- the markers of an alias (marqueursSSH) -----------------------------------------------

  const OUVRE := "# >>> " + "vaultaire-gpo:"
  const FERME := "# <<< " + "vaultaire-gpo:"

  function Debut(alias: string): string { OUVRE + alias + " >>>" }
  function Fin(alias: string): string { FERME + alias + " <<<" }

  // --- the file (removeMarkedBlock, applyUserSSHClientConfig) -------------------------------

  /** The lines outside the block; a block never closed takes everything after it. */
  function HorsBloc(l: seq<string>, debut: string, fin: string, dedans: bool): seq<string> {
    if l == [] then []
    else if TrimSpace(l[0]) == debut then HorsBloc(l[1..], debut, fin, true)
    else if TrimSpace(l[0]) == fin then HorsBloc(l[1..], debut, fin, false)
    else (if dedans then [] else [l[0]]) + HorsBloc(l[1..], debut, fin, dedans)
  }

  function SansBloc(contenu: string, debut: string, fin: string): string {
    SansFins(Join(HorsBloc(Split(contenu), debut, fin, false)))
  }

  method RemoveMarkedBlock(contenu: string, debut: string, fin: string) returns (r: string)
    ensures r == SansBloc(contenu, debut, fin)
  {
    hide TrimSpace, Split, SansFins;
    var l := Split(contenu);
    var out: seq<string> := [];
    var dedans := false;
    for i := 0 to |l|
      invariant HorsBloc(l, debut, fin, false) == out + HorsBloc(l[i..], debut, fin, dedans)
    {
      var nette := TrimSpace(l[i]);
      ghost var reste := l[i..];
      assert reste[0] == l[i] && reste[1..] == l[i + 1..];
      if nette == debut {
        dedans := true;
        continue;
      }
      if nette == fin {
        dedans := false;
        continue;
      }
      if !dedans {
        assert out + ([l[i]] + HorsBloc(l[i + 1..], debut, fin, dedans)) ==
            out + [l[i]] + HorsBloc(l[i + 1..], debut, fin, dedans);
        out := out + [l[i]];
      }
    }
    assert l[|l|..] == [] && out + [] == out;
    return SansFins(Join(out));
  }

  /** The parameters of a host; an empty one is left out. */
  datatype Hote = Hote(hostname: string, user: string, port: string, proxyJump: string, identityFile: string)

  datatype Operation = Poser(alias: string, hote: Hote) | Retirer(alias: string)

  function SiPresent(v: string, l: string): seq<string> { if v != "" then [l] else [] }

  /** strings.TrimPrefix(v, "/") */
  function SansBarre(v: string): string { if Commence(v, "/") then v[1..] else v }

  /** The lines of an entry. */
  function Entree(alias: string, h: Hote, home: string): seq<string> {
    ["Host " + alias, "    HostName " + h.hostname]
    + SiPresent(h.user, "    User " + h.user)
    + SiPresent(h.port, "    Port " + h.port)
    + SiPresent(h.proxyJump, "    ProxyJump " + h.proxyJump)
    + SiPresent(h.identityFile, "    IdentityFile " + home + "/" + SansBarre(h.identityFile))
  }

  /** What the line says of a keyword. */
  function Dit(l: string, mot: string): Option<string> {
    var p := "    " + mot + " ";
    if Commence(l, p) then Some(l[|p|..]) else None
  }

  /** What an entry says of a keyword, in order. */
  function Valeurs(l: seq<string>, mot: string): seq<string> {
    if l == [] then []
    else (if Dit(l[0], mot).Some? then [Dit(l[0], mot).value] else []) + Valeurs(l[1..], mot)
  }

  lemma {:induction false} ValeursConcat(k: seq<string>, l: seq<string>, mot: string)
    ensures Valeurs(k + l, mot) == Valeurs(k, mot) + Valeurs(l, mot)
  {
    if k == [] {
      assert k + l == l;
    } else {
      assert (k + l)[1..] == k[1..] + l;
      ValeursConcat(k[1..], l, mot);
    }
  }

  const MOTS := ["HostName", "User", "Port", "ProxyJump", "IdentityFile"]

  /** A line of an entry speaks of its own keyword only. */
  lemma UneValeur(l: string, i: nat, j: nat, v: string)
    requires i < 5 && j < 5 && l == "    " + MOTS[i] + " " + v
    ensures Dit(l, MOTS[j]) == if i == j then Some(v) else None
  {
    var p := "    " + MOTS[j] + " ";
    assert l[4] == MOTS[i][0] && (i == 2 || i == 3 ==> l[5] == MOTS[i][1]);
    assert p[4] == MOTS[j][0] && (j == 2 || j == 3 ==> p[5] == MOTS[j][1]);
  }

  lemma TeteMuette(alias: string, j: nat)
    requires j < 5
    ensures Dit("Host " + alias, MOTS[j]) == None
  {
    assert ("Host " + alias)[0] == 'H' && ("    " + MOTS[j] + " ")[0] == ' ';
  }

  lemma SiPresentLu(v: string, ligne: string, i: nat, j: nat, w: string)
    requires i < 5 && j < 5 && ligne == "    " + MOTS[i] + " " + w
    ensures Valeurs(SiPresent(v, ligne), MOTS[j]) == if i == j && v != "" then [w] else []
  {
    UneValeur(ligne, i, j, w);
  }

  /** The entry opens on its host, and says the hostname, and each other parameter given, and nothing else; the key
      lies in the home directory, whatever slash its path starts with. */
  lemma EntreeLue(alias: string, h: Hote, home: string)
    ensures var e := Entree(alias, h, home);
            && |e| >= 2 && e[0] == "Host " + alias
            && Valeurs(e, "HostName") == [h.hostname]
            && Valeurs(e, "User") == (if h.user == "" then [] else [h.user])
            && Valeurs(e, "Port") == (if h.port == "" then [] else [h.port])
            && Valeurs(e, "ProxyJump") == (if h.proxyJump == "" then [] else [h.proxyJump])
            && Valeurs(e, "IdentityFile") ==
               (if h.identityFile == "" then []
                else if h.identityFile[0] == '/' then [home + h.identityFile]
                else [home + "/" + h.identityFile])
  {
    hide Dit, SiPresent, Valeurs;
    forall j | 0 <= j < 5
      ensures Valeurs(Entree(alias, h, home), MOTS[j]) ==
        if j == 0 then [h.hostname]
        else if j == 1 then (if h.user == "" then [] else [h.user])
        else if j == 2 then (if h.port == "" then [] else [h.port])
        else if j == 3 then (if h.proxyJump == "" then [] else [h.proxyJump])
        else (if h.identityFile == "" then [] else [home + "/" + SansBarre(h.identityFile)])
    {
      MotLu(alias, h, home, j);
    }
    assert MOTS[0] == "HostName" && MOTS[1] == "User" && MOTS[2] == "Port" && MOTS[3] == "ProxyJump"
        && MOTS[4] == "IdentityFile";
    if h.identityFile != "" && h.identityFile[0] == '/' {
      assert h.identityFile == "/" + h.identityFile[1..];
      assert home + "/" + h.identityFile[1..] == home + h.identityFile;
    }
  }

  lemma MotLu(alias: string, h: Hote, home: string, j: nat)
    requires j < 5
    ensures Valeurs(Entree(alias, h, home), MOTS[j]) ==
        if j == 0 then [h.hostname]
        else if j == 1 then (if h.user == "" then [] else [h.user])
        else if j == 2 then (if h.port == "" then [] else [h.port])
        else if j == 3 then (if h.proxyJump == "" then [] else [h.proxyJump])
        else (if h.identityFile == "" then [] else [home + "/" + SansBarre(h.identityFile)])
  {
    hide Dit, SiPresent, Valeurs, SansBarre;
    var k := home + "/" + SansBarre(h.identityFile);
    var t := ["Host " + alias, "    HostName " + h.hostname];
    var u, p := SiPresent(h.user, "    User " + h.user), SiPresent(h.port, "    Port " + h.port);
    var x, i := SiPresent(h.proxyJump, "    ProxyJump " + h.proxyJump),
                SiPresent(h.identityFile, "    IdentityFile " + home + "/" + SansBarre(h.identityFile));
    EntreeTete(alias, h.hostname, j);
    SiPresentLu(h.user, "    User " + h.user, 1, j, h.user);
    SiPresentLu(h.port, "    Port " + h.port, 2, j, h.port);
    SiPresentLu(h.proxyJump, "    ProxyJump " + h.proxyJump, 3, j, h.proxyJump);
    assert "    IdentityFile " + home + "/" + SansBarre(h.identityFile) == "    " + MOTS[4] + " " + k;
    SiPresentLu(h.identityFile, "    IdentityFile " + home + "/" + SansBarre(h.identityFile), 4, j, k);
    ValeursConcat(t + u + p + x, i, MOTS[j]);
    ValeursConcat(t + u + p, x, MOTS[j]);
    ValeursConcat(t + u, p, MOTS[j]);
    ValeursConcat(t, u, MOTS[j]);
  }

  lemma EntreeTete(alias: string, hostname: string, j: nat)
    requires j < 5
    ensures Valeurs(["Host " + alias, "    HostName " + hostname], MOTS[j]) == if j == 0 then [hostname] else []
  {
    hide Dit;
    var t := ["Host " + alias, "    HostName " + hostname];
    TeteMuette(alias, j);
    UneValeur("    HostName " + hostname, 0, j, hostname);
    assert t[1..] == ["    HostName " + hostname] && t[1..][1..] == [];
    assert Valeurs(t[1..], MOTS[j]) == if j == 0 then [hostname] else [];
  }

  /** No alias, or no real host for an entry to write. */
  predicate Refusee(op: Operation) { op.alias == "" || (op.Poser? && op.hote.hostname == "") }

  /** The file an operation leaves; an absent file is the empty text. */
  function Appliquer(contenu: string, op: Operation, home: string): string {
    if Refusee(op) then contenu
    else
      var r := SansBloc(contenu, Debut(op.alias), Fin(op.alias));
      match op
      case Retirer(_) => if TrimSpace(r) == "" then "" else r + "\n"
      case Poser(alias, h) =>
        var bloc := Joindre([Debut(alias)] + Entree(alias, h, home) + [Fin(alias)]);
        if TrimSpace(r) != "" then SansFins(r) + "\n\n" + bloc else bloc
  }

  /** One line more in the text of an entry. */
  method Ecrire(b: string, ligne: string, ghost lignes: seq<string>) returns (b': string)
    requires b == Joindre(lignes)
    ensures b' == Joindre(lignes + [ligne])
  {
    JoindreConcat(lignes, [ligne]);
    b' := b + (ligne + "\n");
  }

  method EcrireSi(b: string, v: string, ligne: string, ghost lignes: seq<string>) returns (b': string)
    requires b == Joindre(lignes)
    ensures b' == Joindre(lignes + SiPresent(v, ligne))
  {
    assert lignes + [] == lignes;
    b' := b;
    if v != "" { b' := Ecrire(b, ligne, lignes); }
  }

  method EcrireEntree(alias: string, h: Hote, home: string) returns (b: string)
    ensures b == Joindre([Debut(alias)] + Entree(alias, h, home) + [Fin(alias)])
  {
    hide Joindre, Debut, Fin, SiPresent;
    var u, p, j, i := "    User " + h.user, "    Port " + h.port, "    ProxyJump " + h.proxyJump,
                      "    IdentityFile " + home + "/" + SansBarre(h.identityFile);
    ghost var l := [];
    JoindreVide();
    b := Ecrire("", Debut(alias), l);
    l := l + [Debut(alias)];
    b := Ecrire(b, "Host " + alias, l);
    l := l + ["Host " + alias];
    b := Ecrire(b, "    HostName " + h.hostname, l);
    l := l + ["    HostName " + h.hostname];
    b := EcrireSi(b, h.user, u, l);
    l := l + SiPresent(h.user, u);
    b := EcrireSi(b, h.port, p, l);
    l := l + SiPresent(h.port, p);
    b := EcrireSi(b, h.proxyJump, j, l);
    l := l + SiPresent(h.proxyJump, j);
    b := EcrireSi(b, h.identityFile, i, l);
    l := l + SiPresent(h.identityFile, i);
    b := Ecrire(b, Fin(alias), l);
    assert l == [Debut(alias)] + Entree(alias, h, home);
  }

  lemma JoindreVide()
    ensures Joindre([]) == ""
  {
  }

  /** ~/.ssh/config */
  class Fichier {
    var contenu: string

    constructor (c: string)
      ensures contenu == c
    {
      contenu := c;
    }

    method ApplyUserSSHClientConfig(op: Operation, home: string) returns (ok: bool)
      modifies this
      ensures ok <==> op.alias != "" && (op.Poser? ==> op.hote.hostname != "")
      ensures contenu == Appliquer(old(contenu), op, home)
    {
      hide TrimSpace, SansFins, SansBloc, Joindre, Entree, Debut, Fin;
      if op.alias == "" { return false; }
      var debut, fin := Debut(op.alias), Fin(op.alias);
      var rebuilt := RemoveMarkedBlock(contenu, debut, fin);
      if op.Retirer? {
        contenu := if TrimSpace(rebuilt) == "" then "" else rebuilt + "\n";
        return true;
      }
      var h := op.hote;
      if h.hostname == "" { return false; }
      var b := EcrireEntree(op.alias, h, home);
      contenu := if TrimSpace(rebuilt) != "" then SansFins(rebuilt) + "\n\n" + b else b;
      return true;
    }
  }
}
