/** When a module the policy skipped is tried again (apply.go:357-360, 525-545; cycle.go:346-357): the server
    sends the policy again only if it is told another fingerprint. */
module Reprises {
  import opened Options
  import opened Cles
  import opened Etat
  import opened Application
  import opened Construction
  import opened Derive
  import opened Cycles
  import opened Tours
  import opened Regime

  /** The steps that clear the recorded fingerprint: a drift correction, a catch-up that finds something to
      catch up, the loss of the scope; and they must be saved. */
  ghost predicate Efface(e: Option<EtatScope>, pas: Pas) {
    match pas
    case Perte => true
    case Ecarts(items, sauve) => sauve && e.Some? && Corriges(e.value, items) != {}
    case ReprendreInventaire(sauve) => sauve && e.Some? && ARejouer(e.value) != {}
    case ReprendreAttentes(sauve) => sauve && e.Some? && AttenteManquante(e.value)
    case Cycle(_, _, _, _, _, _, _) => false
  }

  ghost predicate SansCycle(run: seq<Pas>) {
    forall j | 0 <= j < |run| :: !run[j].Cycle?
  }

  /** Nothing recorded, or the fingerprint cleared. */
  ghost predicate ARedemander(e: Option<EtatScope>) {
    e.None? || e.value.fingerprint == ""
  }

  lemma UnEffacement(e: Option<EtatScope>, pas: Pas)
    requires !pas.Cycle?
    ensures ARedemander(EtatSuivant(e, pas)) <==> ARedemander(e) || Efface(e, pas)
    ensures !ARedemander(EtatSuivant(e, pas)) ==> EtatSuivant(e, pas).value.fingerprint == e.value.fingerprint
  {
    hide Corriges, ARejouer, AttenteManquante;
  }

  lemma DernierPas(e: Option<EtatScope>, run: seq<Pas>)
    requires run != [] && forall j | 0 <= j < |run| :: PasValide(run[j])
    ensures EtatParcouru(e, run) == EtatSuivant(EtatParcouru(e, run[..|run| - 1]), run[|run| - 1])
  {
    hide EtatSuivant, Dernieres, Executes;
  }

  ghost predicate EffaceEn(e: Option<EtatScope>, run: seq<Pas>, j: nat)
    requires j < |run| && forall l | 0 <= l < |run| :: PasValide(run[l])
  {
    Efface(EtatParcouru(e, run[..j]), run[j])
  }

  /** Between two cycles, the fingerprint goes exactly at the first step that clears it. */
  lemma {:induction false} EffaceSsi(e: Option<EtatScope>, run: seq<Pas>)
    requires SansCycle(run) && !ARedemander(e)
    ensures ARedemander(EtatParcouru(e, run)) <==> exists j :: 0 <= j < |run| && EffaceEn(e, run, j)
    ensures !ARedemander(EtatParcouru(e, run)) ==> EtatParcouru(e, run).value.fingerprint == e.value.fingerprint
  {
    if run != [] {
      hide Efface, EtatSuivant, EtatParcouru;
      var n := |run| - 1;
      EffaceSsi(e, run[..n]);
      UnEffacement(EtatParcouru(e, run[..n]), run[n]);
      DernierPas(e, run);
      assert EffaceEn(e, run, n) <==> Efface(EtatParcouru(e, run[..n]), run[n]);
      forall j | 0 <= j < n ensures EffaceEn(e, run, j) <==> EffaceEn(e, run[..n], j) {
        assert run[..n][..j] == run[..j];
      }
    }
  }

  /** No step but a cycle records a module. */
  lemma {:induction false} JamaisRetenu(e: Option<EtatScope>, run: seq<Pas>, k: Cle)
    requires SansCycle(run) && !Retient(e, k)
    ensures !Retient(EtatParcouru(e, run), k)
  {
    if run != [] {
      JamaisRetenu(e, run[..|run| - 1], k);
      DernierPas(e, run);
      OubliSeul(EtatParcouru(e, run[..|run| - 1]), run[|run| - 1], k);
    }
  }

  ghost predicate Retient(e: Option<EtatScope>, k: Cle) { e.Some? && k in e.value.modules }

  lemma OubliSeul(e: Option<EtatScope>, pas: Pas, k: Cle)
    requires !pas.Cycle? && !Retient(e, k)
    ensures !Retient(EtatSuivant(e, pas), k)
  {
    hide Corriges, ARejouer, AttenteManquante;
  }

  /** A policy recorded with module `i` left out, then any steps that are no cycle, then the next request for
      the same policy: the server sends it again exactly if one of the steps cleared the fingerprint, and the
      cycle then calls the applier of the module as soon as it knows one. */
  lemma ModuleSaute(e: EtatScope, run: seq<Pas>, c: Pas, i: nat)
    requires SansCycle(run) && c.Cycle? && PasValide(c) && i < |c.policy.modules|
    requires c.policy.fingerprint !in {"", "none"}
    requires e.fingerprint == c.policy.fingerprint && c.policy.modules[i].stateKey !in e.modules
    ensures var f := EtatParcouru(Some(e), run);
            && (ReponseDuServeur(Appliquee(f), c.policy).Recue? <==>
                  exists j :: 0 <= j < |run| && EffaceEn(Some(e), run, j))
            && (c.policy.modules[i].stateKey in Appels(f, c) <==>
                  Ouvert(c, c.policy.modules[i]) && c.appl(c.policy.modules[i]).Some?)
  {
    var f := EtatParcouru(Some(e), run);
    EffaceSsi(Some(e), run);
    JamaisRetenu(Some(e), run, c.policy.modules[i].stateKey);
    PasExecute(c, c.policy.modules, Lu(f, c), i);
    hide EffaceEn, EtatParcouru, Executes;
  }

  /** Every enforce owner of a finding whose forgetting was saved is executed by the next received cycle that
      can start it and has its applier, whatever steps stand between; and the server sends the policy, being
      told that nothing is applied. */
  lemma EcartRejoue(e: EtatScope, items: seq<DriftItem>, run: seq<Pas>, c: Pas, i: nat)
    requires SansCycle(run) && c.Cycle? && PasValide(c) && i < |c.policy.modules| && c.policy.fingerprint != "none"
    requires Concerne(items, c.policy.modules[i].stateKey)
    requires ModuleMode(e, c.policy.modules[i].stateKey) != Audit
    ensures var f := EtatParcouru(EtatSuivant(Some(e), Ecarts(items, true)), run);
            && ReponseDuServeur(Appliquee(f), c.policy).Recue?
            && (c.policy.modules[i].stateKey in Appels(f, c) <==>
                  Ouvert(c, c.policy.modules[i]) && c.appl(c.policy.modules[i]).Some?)
  {
    var k := c.policy.modules[i].stateKey;
    var j :| 0 <= j < |items| && Repond(items[j], k);
    assert k in Corriges(e, items);
    var g := EtatSuivant(Some(e), Ecarts(items, true));
    JamaisRetenu(g, run, k);
    ResteARedemander(g, run);
    var f := EtatParcouru(g, run);
    PasExecute(c, c.policy.modules, Lu(f, c), i);
    hide EtatParcouru, Executes, Corriges, EtatSuivant;
  }

  lemma {:induction false} ResteARedemander(e: Option<EtatScope>, run: seq<Pas>)
    requires SansCycle(run) && ARedemander(e)
    ensures ARedemander(EtatParcouru(e, run))
  {
    if run != [] {
      hide Efface, EtatSuivant, EtatParcouru;
      ResteARedemander(e, run[..|run| - 1]);
      UnEffacement(EtatParcouru(e, run[..|run| - 1]), run[|run| - 1]);
      DernierPas(e, run);
    } else {
      assert EtatParcouru(e, run) == e;
    }
  }

  /** A policy of one module whose type this agent does not know: it is recorded as applied, the module is
      not, and a second request is told that nothing has changed. */
  lemma SauteExemple() returns (c: Pas, e: EtatScope)
    ensures c.Cycle? && PasValide(c) && |c.policy.modules| == 1
    ensures Some(e) == EtatSuivant(None, c) && e.fingerprint == c.policy.fingerprint
    ensures c.policy.modules[0].stateKey !in e.modules
    ensures ReponseDuServeur(Appliquee(Some(e)), c.policy) == Inchangee
  {
    hide Enregistre;
    var mod := Module("wallpaper", 1, "wallpaper:-", "1", "enforce", "");
    c := Cycle(Machine, Policy(1, "p1", [mod]), (x: Module) => None, {}, true, true, true);
    e := Enregistre(Machine, true, c.policy, None, c.appl, {});
    assert SauteEn(c, mod, None);
    EmpreinteDePolitique(c, None);
    EnregistreEn(c, None, 0);
  }

  // --- a policy that comes back -----------------------------------------------------------------

  /** Asked for this policy, the server answers that nothing has changed, and some module of it is not in
      place under its fingerprint. */
  ghost predicate Trompeur(e: Option<EtatScope>, p: Policy) {
    && ReponseDuServeur(Appliquee(e), p) == Inchangee
    && exists i :: 0 <= i < |p.modules| && !DejaPose(p.modules[i], e)
  }

  /** The cycle leaves module `m`, of any policy, in place: its own policy has it under the same key and
      fingerprint, and it could start, and was in place or succeeded. */
  ghost predicate PoseApres(c: Pas, m: Module, avant: Option<EtatScope>)
    requires c.Cycle?
  {
    Ouvert(c, m) && exists j :: 0 <= j < |c.policy.modules| && PosePar(c, c.policy.modules[j], m, avant)
  }

  ghost predicate PosePar(c: Pas, n: Module, m: Module, avant: Option<EtatScope>)
    requires c.Cycle?
  {
    && n.stateKey == m.stateKey && n.fingerprint == m.fingerprint
    && (DejaPose(n, avant) || (c.appl(n).Some? && c.appl(n).value.verdict == Reussi))
  }

  /** What makes a saved cycle, of this policy or of another, leave such a state. */
  ghost predicate TrompeApres(c: Pas, avant: Option<EtatScope>, p: Policy)
    requires c.Cycle?
  {
    && (if Applique(c, avant) then c.policy.fingerprint else EmpreinteDe(avant)) == p.fingerprint
    && exists i :: 0 <= i < |p.modules| && !PoseApres(c, p.modules[i], avant)
  }

  lemma PoseApresSsi(c: Pas, avant: Option<EtatScope>, m: Module)
    requires c.Cycle? && PasValide(c)
    ensures DejaPose(m, Some(Enregistre(c.portee, c.home, c.policy, avant, c.appl, c.erreurs))) <==>
            PoseApres(c, m, avant)
  {
    hide Enregistre;
    var ms := c.policy.modules;
    var f := Enregistre(c.portee, c.home, c.policy, avant, c.appl, c.erreurs);
    if m.stateKey in ClesDe(ms) {
      var j := Rang(ms, m.stateKey);
      EnregistreEn(c, avant, j);
      assert PoseApres(c, m, avant) ==> PosePar(c, ms[j], m, avant);
    } else {
      if m.stateKey in f.modules { EnregistreDansLaPolitique(c, avant, m.stateKey); }
      assert forall j | 0 <= j < |ms| :: ms[j].stateKey in ClesDe(ms);
    }
  }

  lemma TrompeApresSsi(c: Pas, avant: Option<EtatScope>, p: Policy)
    requires c.Cycle? && PasValide(c) && p.fingerprint !in {"", "none"}
    ensures Trompeur(Some(Enregistre(c.portee, c.home, c.policy, avant, c.appl, c.erreurs)), p) <==>
            TrompeApres(c, avant, p)
  {
    hide Enregistre, PoseApres, Applique, EmpreinteDe, DejaPose;
    EmpreinteApres(c, avant);
    forall i | 0 <= i < |p.modules| { PoseApresSsi(c, avant, p.modules[i]); }
  }

  /** A saved cycle decides anew; any other step keeps what was, unless it clears the fingerprint. */
  lemma TrompeurUnPas(e: Option<EtatScope>, pas: Pas, p: Policy)
    requires PasValide(pas) && p.fingerprint !in {"", "none"}
    ensures Trompeur(EtatSuivant(e, pas), p) <==>
            if pas.Cycle? && pas.sauve then TrompeApres(pas, Lu(e, pas), p) else Trompeur(e, p) && !Efface(e, pas)
  {
    if pas.Cycle? {
      TrompeApresSsi(pas, Lu(e, pas), p);
      hide Enregistre, TrompeApres, Trompeur;
    } else {
      hide Corriges, ARejouer, AttenteManquante, DejaPose;
    }
  }

  ghost predicate TrompeEn(e: Option<EtatScope>, run: seq<Pas>, p: Policy, j: nat)
    requires j < |run| && forall l | 0 <= l < |run| :: PasValide(run[l])
  {
    run[j].Cycle? && run[j].sauve && TrompeApres(run[j], Lu(EtatParcouru(e, run[..j]), run[j]), p)
  }

  /** From step `n` on, no cycle is saved and nothing clears the fingerprint. */
  ghost predicate SansReprise(e: Option<EtatScope>, run: seq<Pas>, n: nat)
    requires forall l | 0 <= l < |run| :: PasValide(run[l])
  {
    forall l | n <= l < |run| :: !(run[l].Cycle? && run[l].sauve) && !EffaceEn(e, run, l)
  }

  /** The last saved cycle left the state so, or none was saved and it was so at the start; and nothing since
      has cleared the fingerprint. */
  ghost predicate Vient(e: Option<EtatScope>, run: seq<Pas>, p: Policy)
    requires forall l | 0 <= l < |run| :: PasValide(run[l])
  {
    || (Trompeur(e, p) && SansReprise(e, run, 0))
    || (exists j :: 0 <= j < |run| && TrompeEn(e, run, p, j) && SansReprise(e, run, j + 1))
  }

  /** Over any run of drift scans, catch-ups, losses and cycles of whatever policies, the state passes for this
      policy with a module missing exactly if it comes from such a cycle, or was so. */
  lemma {:induction false} TrompeurSsi(e: Option<EtatScope>, run: seq<Pas>, p: Policy)
    requires p.fingerprint !in {"", "none"} && forall l | 0 <= l < |run| :: PasValide(run[l])
    ensures Trompeur(EtatParcouru(e, run), p) <==> Vient(e, run, p)
  {
    hide Efface, EtatSuivant, Trompeur, TrompeApres;
    if run == [] {
      assert SansReprise(e, run, 0);
    } else {
      hide Vient;
      var n := |run| - 1;
      TrompeurSsi(e, run[..n], p);
      DernierPas(e, run);
      TrompeurUnPas(EtatParcouru(e, run[..n]), run[n], p);
      VientEncore(e, run, p);
    }
  }

  lemma VientEncore(e: Option<EtatScope>, run: seq<Pas>, p: Policy)
    requires run != [] && forall l | 0 <= l < |run| :: PasValide(run[l])
    ensures var n := |run| - 1;
            var a := EtatParcouru(e, run[..n]);
            Vient(e, run, p) <==> if run[n].Cycle? && run[n].sauve then TrompeApres(run[n], Lu(a, run[n]), p)
                                  else Vient(e, run[..n], p) && !Efface(a, run[n])
  {
    var n := |run| - 1;
    PrefixeDuRun(e, run, p);
    assert TrompeEn(e, run, p, n) <==>
           run[n].Cycle? && run[n].sauve && TrompeApres(run[n], Lu(EtatParcouru(e, run[..n]), run[n]), p);
    hide Efface, TrompeApres, EtatParcouru, TrompeEn, SansReprise, Trompeur;
    if run[n].Cycle? && run[n].sauve {
      assert forall m | 0 <= m <= n :: !SansReprise(e, run, m);
    } else {
      assert !TrompeEn(e, run, p, n);
    }
  }

  lemma PrefixeDuRun(e: Option<EtatScope>, run: seq<Pas>, p: Policy)
    requires run != [] && forall l | 0 <= l < |run| :: PasValide(run[l])
    ensures var n := |run| - 1;
            var dernier := !(run[n].Cycle? && run[n].sauve) && !Efface(EtatParcouru(e, run[..n]), run[n]);
            && (forall j | 0 <= j < n :: TrompeEn(e, run, p, j) <==> TrompeEn(e, run[..n], p, j))
            && (forall m | 0 <= m <= n :: SansReprise(e, run, m) <==> SansReprise(e, run[..n], m) && dernier)
            && SansReprise(e, run, n + 1)
  {
    hide Efface, TrompeApres, EtatParcouru;
    var n := |run| - 1;
    forall j | 0 <= j < n
      ensures run[..n][j] == run[j] && run[..n][..j] == run[..j]
      ensures EffaceEn(e, run, j) <==> EffaceEn(e, run[..n], j)
    {
      assert run[..n][..j] == run[..j];
    }
  }

  /** A policy in place, then one saved cycle of another: the server, back to the first, is told its fingerprint
      with some module of it gone exactly if the state was read, the cycle does not pass for applied, and some
      module of the first policy is not in the second under the same key and fingerprint, or could not start. */
  lemma PolitiqueRevenue(e: EtatScope, p: Policy, c: Pas)
    requires c.Cycle? && PasValide(c) && p.fingerprint !in {"", "none"} && c.policy.fingerprint != p.fingerprint
    requires e.fingerprint == p.fingerprint && forall i | 0 <= i < |p.modules| :: DejaPose(p.modules[i], Some(e))
    ensures Trompeur(EtatSuivant(Some(e), c), p) <==>
            && c.sauve && c.lu && !Applique(c, Some(e))
            && (exists i :: 0 <= i < |p.modules|
                  && (!Ouvert(c, p.modules[i]) || !Reprend(c.policy.modules, p.modules[i])))
  {
    TrompeurUnPas(Some(e), c, p);
    hide Applique, Ouvert, EtatSuivant;
    if c.lu {
      forall i | 0 <= i < |p.modules|
        ensures PoseApres(c, p.modules[i], Some(e)) <==>
                Ouvert(c, p.modules[i]) && Reprend(c.policy.modules, p.modules[i])
      {
        ReprendDejaPose(e, c, p.modules[i]);
      }
    }
  }

  ghost predicate Reprend(ms: seq<Module>, m: Module) {
    exists j :: 0 <= j < |ms| && ms[j].stateKey == m.stateKey && ms[j].fingerprint == m.fingerprint
  }

  lemma ReprendDejaPose(e: EtatScope, c: Pas, m: Module)
    requires c.Cycle? && DejaPose(m, Some(e))
    ensures PoseApres(c, m, Some(e)) <==> Ouvert(c, m) && Reprend(c.policy.modules, m)
  {
    hide Ouvert;
    var ms := c.policy.modules;
    if Reprend(ms, m) {
      var j :| 0 <= j < |ms| && ms[j].stateKey == m.stateKey && ms[j].fingerprint == m.fingerprint;
      assert PosePar(c, ms[j], m, Some(e));
    }
    if j: nat :| j < |ms| && PosePar(c, ms[j], m, Some(e)) {
      assert ms[j].stateKey == m.stateKey && ms[j].fingerprint == m.fingerprint;
    }
  }

  /** One policy in place, replaced by one that applies in part, and back: the agent is told "unchanged" with
      the content of the second policy. */
  lemma RevenueExemple() returns (e: EtatScope, p: Policy, c: Pas)
    ensures |p.modules| == 1 && e.fingerprint == p.fingerprint && DejaPose(p.modules[0], Some(e))
    ensures c.Cycle? && PasValide(c) && c.sauve && c.policy.fingerprint != p.fingerprint
    ensures Trompeur(EtatSuivant(Some(e), c), p)
  {
    hide Applique, EtatSuivant, Trompeur;
    var un, deux := Module("motd", 1, "motd:-", "1", "enforce", ""), Module("motd", 1, "motd:-", "2", "enforce", "");
    var autre := Module("fs", 2, "fs:-", "3", "enforce", "");
    p := Policy(1, "p0", [un]);
    e := EtatScope("p0", 1, "applied", map["motd:-" := "1"], map[], map[], map[], VERSION_INVENTAIRE);
    c := Cycle(Machine, Policy(2, "p1", [deux, autre]),
               (m: Module) => Some(Execution([], if m.stateKey == "motd:-" then Reussi else Echoue)),
               {}, true, true, true);
    EchecDe(c, 1, Some(e));
    assert !Reprend(c.policy.modules, p.modules[0]);
    PolitiqueRevenue(e, p, c);
  }

  lemma EchecDe(c: Pas, i: nat, avant: Option<EtatScope>)
    requires c.Cycle? && i < |c.policy.modules| && EchoueEn(c, c.policy.modules[i], avant)
    ensures !Applique(c, avant)
  {
  }
}
