/** Policies and the local state of what was applied (policy.go, state.go). */
module Etat {
  import opened Cles
  import opened Proprietes
  import opened Inventaires
  import opened Options
  import Texte

  datatype DriftMode = Enforce | Audit

  /** `ModuleSSHServerConfig`, the one type of `attentesExigees`, and the kind it must have declared. */
  const SSH_SERVER_CONFIG := "ssh_server_config"
  const CHECK_SSH_EFFECTIF := "sshd_effectif"

  /** `directives` is the expectation an ssh_server_config module declares, blank for none. */
  datatype Module = Module(genre: string, applyOrder: int, stateKey: Cle, fingerprint: string,
                           driftMode: string, directives: string)

  datatype Policy = Policy(version: int, fingerprint: string, modules: seq<Module>)

  function Minuscule(c: char): char {
    if 'A' <= c <= 'Z' then (c as int + 32) as char
    else if c == '\U{0130}' then 'i'
    else c
  }

  /** strings.ToLower, exact on every string whose result is plain ASCII letters other than 'k'. */
  function EnMinuscules(s: string): string { seq(|s|, i requires 0 <= i < |s| => Minuscule(s[i])) }

  /** An unknown or missing mode falls back to enforce. */
  function Mode(m: Module): DriftMode {
    if EnMinuscules(Texte.TrimSpace(m.driftMode)) == "audit" then Audit else Enforce
  }

  /** The five letters, in any case, between any blanks, mean audit; another word means enforce. */
  lemma ModeDit(m: Module, b: string, w: string, c: string)
    requires m.driftMode == b + w + c && Texte.ToutBlanc(b) && Texte.ToutBlanc(c) && Texte.Nette(w)
    requires forall i | 0 <= i < |w| :: 'a' <= w[i] <= 'z' || 'A' <= w[i] <= 'Z'
    ensures Mode(m) == Audit <==>
            |w| == 5 && w[0] in "aA" && w[1] in "uU" && w[2] in "dD" && w[3] in "iI" && w[4] in "tT"
  {
    Texte.TrimEntoure(b, w, c);
    MotAudit(w);
  }

  lemma MotAudit(w: string)
    requires forall i | 0 <= i < |w| :: 'a' <= w[i] <= 'z' || 'A' <= w[i] <= 'Z'
    ensures EnMinuscules(w) == "audit" <==>
            |w| == 5 && w[0] in "aA" && w[1] in "uU" && w[2] in "dD" && w[3] in "iI" && w[4] in "tT"
  {
    var e := EnMinuscules(w);
    assert forall i | 0 <= i < |w| :: e[i] == Minuscule(w[i]);
    if |w| == 5 {
      assert e == "audit" <==> e[0] == 'a' && e[1] == 'u' && e[2] == 'd' && e[3] == 'i' && e[4] == 't';
    }
  }

  lemma ModeAuditExemple(m: Module)
    requires m.driftMode == "audit"
    ensures Mode(m) == Audit
  {
    assert EnMinuscules("audit") == "audit";
  }

  function Texto(d: DriftMode): string { if d == Audit then "audit" else "enforce" }

  predicate ClesDistinctes(modules: seq<Module>) {
    && (forall i, j | 0 <= i < j < |modules| :: modules[i].stateKey != modules[j].stateKey)
    && (forall i | 0 <= i < |modules| :: modules[i].stateKey != "")
  }

  function ClesDe(modules: seq<Module>): set<Cle> {
    set i | 0 <= i < |modules| :: modules[i].stateKey
  }

  // --- the recorded state of one scope ---------------------------------------

  datatype EtatScope = EtatScope(
    fingerprint: string,
    version: int,
    status: string,
    modules: map<Cle, string>,
    files: map<Chemin, FileState>,
    checks: map<string, SystemCheck>,
    modes: map<Cle, string>,
    inventaire: int)

  const VERSION_INVENTAIRE := 2

  function ModuleMode(s: EtatScope, cle: Cle): DriftMode {
    if cle in s.modes && s.modes[cle] == "audit" then Audit else Enforce
  }

  function Oublier(s: EtatScope, cles: set<Cle>): EtatScope {
    s.(modules := s.modules - cles)
  }

  function ARejouer(s: EtatScope): set<Cle> {
    if s.inventaire >= VERSION_INVENTAIRE then {}
    else set k | k in s.modules && ModuleMode(s, k) != Audit
  }

  function OublierPourInventaire(s: EtatScope): EtatScope {
    if ARejouer(s) == {} then s else Oublier(s, ARejouer(s)).(fingerprint := "")
  }

  /** A state written under the current rule is left alone; an older one loses the modules that are not in audit, and
      the fingerprint of the policy with them. */
  lemma RepriseDite(s: EtatScope)
    ensures s.inventaire >= 2 ==> OublierPourInventaire(s) == s
    ensures s.inventaire < 2 ==>
              var t := OublierPourInventaire(s);
              && (forall k :: k in t.modules <==> k in s.modules && k in s.modes && s.modes[k] == "audit")
              && (forall k | k in t.modules :: t.modules[k] == s.modules[k])
              && t.fingerprint == (if forall k | k in s.modules :: k in s.modes && s.modes[k] == "audit"
                                   then s.fingerprint else "")
              && t == s.(modules := t.modules, fingerprint := t.fingerprint)
  {
    if s.inventaire < 2 {
      assert forall k | k in s.modules :: ModuleMode(s, k) != Audit <==> k in ARejouer(s);
    }
  }

  /** A module of this type must have declared an expectation, and owns none in this state. */
  predicate ManqueAttente(s: EtatScope, genre: string, cle: Cle) {
    genre == SSH_SERVER_CONFIG
    && forall id | id in s.checks ::
         s.checks[id].objet.kind == CHECK_SSH_EFFECTIF ==> cle !in ListeProprietaires(s.checks[id])
  }

  /** Some module recorded by this state lacks the expectation its type requires. */
  predicate AttenteManquante(e: EtatScope) {
    exists k | k in e.modules :: ManqueAttente(e, GenreDe(k), k)
  }

  /** The type is read in the state key, before its first colon. */
  function GenreDe(cle: Cle): string {
    if cle == "" || cle[0] == ':' then "" else [cle[0]] + GenreDe(cle[1..])
  }

  /** In plain words: a recorded module of type ssh_server_config owns no sshd_effectif expectation. */
  lemma RattrapageSsi(e: EtatScope)
    ensures AttenteManquante(e) <==>
            exists k | k in e.modules ::
              && (k == "ssh_server_config" || "ssh_server_config:" <= k)
              && forall id | id in e.checks && e.checks[id].objet.kind == "sshd_effectif" ::
                   k !in ListeProprietaires(e.checks[id])
  {
    forall k ensures GenreDe(k) == "ssh_server_config" <==> k == "ssh_server_config" || "ssh_server_config:" <= k {
      GenreDit(k, "ssh_server_config");
      assert "ssh_server_config" + ":" == "ssh_server_config:";
    }
    hide GenreDe;
    assert forall k | k in e.modules :: ManqueAttente(e, GenreDe(k), k) <==>
        && (k == "ssh_server_config" || "ssh_server_config:" <= k)
        && forall id | id in e.checks && e.checks[id].objet.kind == "sshd_effectif" ::
             k !in ListeProprietaires(e.checks[id]);
  }

  lemma {:induction false} GenreDit(k: Cle, g: string)
    requires ':' !in g
    ensures GenreDe(k) == g <==> k == g || g + ":" <= k
  {
    if k != "" && k[0] != ':' {
      if g != "" {
        GenreDit(k[1..], g[1..]);
        assert g == [g[0]] + g[1..] && k == [k[0]] + k[1..];
        assert (g + ":")[1..] == g[1..] + ":";
        assert g + ":" <= k <==> g[0] == k[0] && g[1..] + ":" <= k[1..];
      } else {
        assert GenreDe(k) != "";
      }
    }
  }

  function ApresRattrapage(e: EtatScope): EtatScope {
    if AttenteManquante(e) then e.(fingerprint := "") else e
  }

  /** The object the engine works on (`*ScopeState`). */
  class ScopeState {
    var fingerprint: string
    var version: int
    var status: string
    var modules: map<Cle, string>
    var files: map<Chemin, FileState>
    var checks: map<string, SystemCheck>
    var modes: map<Cle, string>
    var inventaire: int

    function Valeur(): EtatScope reads this {
      EtatScope(fingerprint, version, status, modules, files, checks, modes, inventaire)
    }

    constructor (e: EtatScope)
      ensures Valeur() == e
    {
      fingerprint, version, status, modules := e.fingerprint, e.version, e.status, e.modules;
      files, checks, modes, inventaire := e.files, e.checks, e.modes, e.inventaire;
    }

    /** Only the fingerprint goes: the mode and the recorded files stay. */
    method ForgetModule(cle: Cle)
      modifies this`modules
      ensures Valeur() == Oublier(old(Valeur()), {cle})
    {
      modules := modules - {cle};
    }

    /** Forgets every enforce module of a state written under an older inventory rule. */
    method OublierPourLInventaire() returns (rejoues: nat)
      modifies this`modules, this`fingerprint
      ensures Valeur() == OublierPourInventaire(old(Valeur()))
      ensures rejoues == |ARejouer(old(Valeur()))|
    {
      if inventaire >= VERSION_INVENTAIRE { return 0; }
      var avant := Valeur();
      modules, rejoues := RetirerCorriges(avant);
      assert ARejouer(avant) == {} ==> modules == avant.modules;
      if rejoues > 0 { fingerprint := ""; }
    }
  }

  method RetirerCorriges(s: EtatScope) returns (modules: map<Cle, string>, rejoues: nat)
    requires s.inventaire < VERSION_INVENTAIRE
    ensures modules == Oublier(s, ARejouer(s)).modules
    ensures rejoues == |ARejouer(s)|
  {
    modules, rejoues := s.modules, 0;
    ghost var oublies: set<Cle> := {};
    var reste := s.modules.Keys;
    while reste != {}
      invariant reste <= s.modules.Keys && rejoues == |oublies|
      invariant forall k :: k in oublies <==> k in s.modules && k !in reste && ModuleMode(s, k) != Audit
      invariant forall k :: k in modules <==> k in s.modules && k !in oublies
      invariant forall k | k in modules :: modules[k] == s.modules[k]
    {
      var cle :| cle in reste;
      reste := reste - {cle};
      if ModuleMode(s, cle) == Audit { continue; }
      modules := modules - {cle};
      rejoues, oublies := rejoues + 1, oublies + {cle};
    }
    assert oublies == ARejouer(s);
  }

  // --- the state file ----------------------------------------------------------

  datatype Portee = Machine | Compte(username: string)

  function EtatDe(enregistre: map<Portee, EtatScope>, portee: Portee): Option<EtatScope> {
    if portee in enregistre then Some(enregistre[portee]) else None
  }

  /** Every other scope is as it was, or lost: a save over a file that cannot be re-read erases it. */
  ghost predicate AutresPortees(avant: map<Portee, EtatScope>, apres: map<Portee, EtatScope>, portee: Portee) {
    forall q: Portee | q != portee :: EtatDe(apres, q) == EtatDe(avant, q) || EtatDe(apres, q) == None
  }

  /** `applied_policies.json`: one state per scope, rewritten whole and atomically.  Reading it may
      fail at any time, and an unreadable file counts as an empty one; `incidents` counts the reads and
      writes that failed. */
  class Depot {
    var enregistre: map<Portee, EtatScope>
    ghost var incidents: nat

    constructor ()
      ensures enregistre == map[] && incidents == 0
    {
      enregistre, incidents := map[], 0;
    }

    method LoadState() returns (lu: map<Portee, EtatScope>)
      modifies this`incidents
      ensures incidents >= old(incidents)
      ensures lu == if incidents == old(incidents) then enregistre else map[]
    {
      var illisible: bool := *;
      lu := if illisible then map[] else enregistre;
      if illisible { incidents := incidents + 1; }
    }

    /** Re-reads under the lock, replaces one scope, renames: the file is either the old one, or what
        was read with this scope replaced. */
    method SaveScopeState(portee: Portee, s: ScopeState) returns (ok: bool)
      modifies this
      ensures incidents >= old(incidents)
      ensures incidents == old(incidents) ==> ok && enregistre == old(enregistre)[portee := s.Valeur()]
      ensures !ok ==> enregistre == old(enregistre)
      ensures ok ==> portee in enregistre && enregistre[portee] == s.Valeur()
      ensures AutresPortees(old(enregistre), enregistre, portee)
    {
      var lu := LoadState();
      ok := *;
      if ok { enregistre := lu[portee := s.Valeur()]; } else { incidents := incidents + 1; }
    }
  }
}
