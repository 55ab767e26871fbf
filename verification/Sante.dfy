/** The health gate of an update (`porteDeSante`, bascule.go:210-246). */
module Sante {
  import opened Options

  datatype Service = Service(actif: bool, pid: int)
  datatype Pong = Pong(tunnel: bool)

  /** In seconds (bascule.go:59-68). */
  const DELAI_SANTE := 180
  const STABILITE := 30
  const PAS_SANTE := 2

  /** What the gate did to the machine it watches: read the clock, the service, the probe, or sleep. */
  datatype Fait = Heure(t: int) | Lu(s: Option<Service>) | Pingue(p: Option<Pong>) | Sommeil(d: nat)

  /** The machine the gate watches: its clock never goes back, the rest answers what it likes.  A reading
      that fails is None.  The journal holds every answer given, in order. */
  class Monde {
    var maintenant: int
    ghost var journal: seq<Fait>

    constructor ()
      ensures journal == []
    {
      maintenant, journal := 0, [];
    }

    method Horloge() returns (t: int)
      modifies this
      ensures t == maintenant >= old(maintenant)
      ensures journal == old(journal) + [Heure(t)]
    {
      var passe: nat :| true;
      maintenant := maintenant + passe;
      t := maintenant;
      journal := journal + [Heure(t)];
    }

    method LireService() returns (s: Option<Service>)
      modifies this
      ensures maintenant >= old(maintenant)
      ensures journal == old(journal) + [Lu(s)]
    {
      var passe: nat :| true;
      maintenant := maintenant + passe;
      s := *;
      journal := journal + [Lu(s)];
    }

    method Sonder() returns (p: Option<Pong>)
      modifies this
      ensures maintenant >= old(maintenant)
      ensures journal == old(journal) + [Pingue(p)]
    {
      var passe: nat :| true;
      maintenant := maintenant + passe;
      p := *;
      journal := journal + [Pingue(p)];
    }

    method Dormir(d: nat)
      modifies this
      ensures maintenant >= old(maintenant) + d
      ensures journal == old(journal) + [Sommeil(d)]
    {
      var passe: nat :| true;
      maintenant := maintenant + d + passe;
      journal := journal + [Sommeil(d)];
    }
  }

  /** One turn of the loop: the clock that let it in, what the service said, the clocks its PID was first
      seen and its age was read at, and the answer of the probe if it was sent. */
  datatype Releve = Releve(avant: int, service: Option<Service>, vuA: int, luA: int, sonde: Option<Option<Pong>>)

  ghost predicate Actif(r: Releve, pid: int) {
    pid > 0 && r.service == Some(Service(true, pid))
  }

  ghost predicate Inactif(r: Releve) {
    r.service.None? || !r.service.value.actif || r.service.value.pid <= 0
  }

  // --- the journal of a trace ---------------------------------------------------------------

  /** The last poll shows a PID the poll before it did not show. */
  ghost predicate NouveauPID(trace: seq<Releve>)
    requires trace != []
  {
    var n := |trace| - 1;
    !Inactif(trace[n]) && (n == 0 || !Actif(trace[n - 1], trace[n].service.value.pid))
  }

  /** What the last turn of a trace asked of the machine, once the clock had let it in: the service; then,
      if it is active, the clock, once more when the PID is new; then the probe, if it was sent. */
  ghost function FaitsDuTour(trace: seq<Releve>): seq<Fait>
    requires trace != []
  {
    var r := trace[|trace| - 1];
    if Inactif(r) then [Lu(r.service)]
    else
      [Lu(r.service)] + (if NouveauPID(trace) then [Heure(r.vuA)] else []) + [Heure(r.luA)]
      + (if r.sonde.Some? then [Pingue(r.sonde.value)] else [])
  }

  /** What all the turns of a trace asked, each with the clock before it and the sleep after it. */
  ghost function Faits(trace: seq<Releve>): seq<Fait> {
    if trace == [] then []
    else
      var n := |trace| - 1;
      Faits(trace[..n]) + [Heure(trace[n].avant)] + FaitsDuTour(trace) + [Sommeil(PAS_SANTE)]
  }

  /** A clock that was not read is that of the reading before it. */
  ghost predicate Date(trace: seq<Releve>)
    requires trace != []
  {
    var r := trace[|trace| - 1];
    && r.avant <= r.vuA <= r.luA
    && (Inactif(r) ==> r.vuA == r.luA == r.avant)
    && (!NouveauPID(trace) ==> r.vuA == r.luA)
  }

  // --- when a trace accepts -------------------------------------------------------------------

  /** From poll `j` to poll `n`, the service was seen active with this one PID. */
  ghost predicate Tient(trace: seq<Releve>, j: nat, n: nat, pid: int) {
    j <= n < |trace| && forall k | j <= k <= n :: Actif(trace[k], pid)
  }

  /** At poll `n` the service had held one PID for at least STABILITE. */
  ghost predicate Stable(trace: seq<Releve>, n: nat) {
    exists j: nat, pid: int :: Tient(trace, j, n, pid) && trace[n].luA - trace[j].vuA >= STABILITE
  }

  ghost predicate Accepte(trace: seq<Releve>, n: nat, avecSonde: bool)
    requires n < |trace|
  {
    Stable(trace, n) && (avecSonde ==> trace[n].sonde == Some(Some(Pong(true))))
  }

  /** Dated by the clocks read, ordered in time, and probed exactly when the service was stable. */
  ghost predicate Fidele(trace: seq<Releve>, avecSonde: bool) {
    && (forall k | 0 < k <= |trace| :: Date(trace[..k]))
    && (forall k | 0 <= k < |trace| :: trace[k].avant <= trace[k].vuA <= trace[k].luA)
    && (forall j, k | 0 <= j < k < |trace| :: trace[j].luA + PAS_SANTE <= trace[k].avant)
    && (forall n | 0 <= n < |trace| :: trace[n].sonde.Some? <==> avecSonde && Stable(trace, n))
  }

  /** Where the loop stands after a trace: `pid` 0 when the last poll saw no service, and otherwise the PID
      held since poll `j`, and not before. */
  ghost predicate Suit(trace: seq<Releve>, pid: int, depuis: int, j: nat) {
    if pid == 0 then trace == [] || Inactif(trace[|trace| - 1])
    else
      && trace != [] && Tient(trace, j, |trace| - 1, pid) && depuis == trace[j].vuA
      && (j == 0 || !Actif(trace[j - 1], pid))
  }

  /** Everything the loop knows before a turn. */
  ghost predicate EnAttente(trace: seq<Releve>, avecSonde: bool, pid: int, depuis: int, j: nat) {
    && pid >= 0
    && Fidele(trace, avecSonde) && Suit(trace, pid, depuis, j)
    && (forall n | 0 <= n < |trace| :: !Accepte(trace, n, avecSonde))
  }

  ghost predicate Apres(trace: seq<Releve>, t: int) {
    trace != [] ==> trace[|trace| - 1].luA + PAS_SANTE <= t
  }

  /** The service was seen active: how long has it held this PID, and does the probe answer? */
  method Examiner(m: Monde, avecSonde: bool, s: Service, pid: int, depuis: int, ghost avant: int)
    returns (accepte: bool, pid': int, depuis': int, ghost r: Releve)
    requires s.actif && s.pid > 0 && avant <= m.maintenant
    modifies m
    ensures r.avant == avant && old(m.maintenant) <= r.vuA <= r.luA <= m.maintenant
    ensures pid' == s.pid && r.service == Some(s) && depuis' == (if pid' == pid then depuis else r.vuA)
    ensures pid' == pid ==> r.vuA == r.luA
    ensures r.sonde.Some? <==> avecSonde && r.luA - depuis' >= STABILITE
    ensures accepte <==> r.luA - depuis' >= STABILITE && (avecSonde ==> r.sonde == Some(Some(Pong(true))))
    ensures m.journal == old(m.journal) + (if pid' == pid then [] else [Heure(r.vuA)]) + [Heure(r.luA)]
                         + (if r.sonde.Some? then [Pingue(r.sonde.value)] else [])
  {
    pid', depuis' := s.pid, depuis;
    if s.pid != pid { depuis' := m.Horloge(); }
    var lu := m.Horloge();
    r := Releve(avant, Some(s), if s.pid != pid then depuis' else lu, lu, None);
    if lu - depuis' < STABILITE { return false, pid', depuis', r; }
    if !avecSonde { return true, pid', depuis', r; }
    var pong := m.Sonder();
    r := r.(sonde := Some(pong));
    accepte := pong == Some(Pong(true));
  }

  /** One turn of the loop, before it sleeps. */
  method UnTour(m: Monde, avecSonde: bool, pid: int, depuis: int, ghost trace: seq<Releve>, ghost j: nat)
    returns (accepte: bool, pid': int, depuis': int, ghost trace': seq<Releve>, ghost j': nat)
    requires EnAttente(trace, avecSonde, pid, depuis, j) && Apres(trace, m.maintenant)
    modifies m
    ensures |trace'| == |trace| + 1 && trace'[..|trace|] == trace
    ensures old(m.maintenant) == trace'[|trace|].avant <= trace'[|trace|].luA <= m.maintenant
    ensures m.journal == old(m.journal) + FaitsDuTour(trace')
    ensures Fidele(trace', avecSonde)
    ensures forall n | 0 <= n < |trace| :: !Accepte(trace', n, avecSonde)
    ensures accepte <==> Accepte(trace', |trace|, avecSonde)
    ensures !accepte ==> EnAttente(trace', avecSonde, pid', depuis', j')
  {
    hide Fidele, EnAttente, Accepte, FaitsDuTour, NouveauPID;
    accepte, pid', depuis', j' := false, pid, depuis, j;
    ghost var avant := m.maintenant;
    var s := m.LireService();
    if s.None? || !s.value.actif || s.value.pid <= 0 {
      trace' := trace + [Releve(avant, s, avant, avant, None)];
      pid' := 0;
      TourInactif(trace, trace', avecSonde, pid, depuis, j);
      return;
    }
    ghost var r;
    accepte, pid', depuis', r := Examiner(m, avecSonde, s.value, pid, depuis, avant);
    if pid' != pid { j' := |trace|; }
    trace' := trace + [r];
    TourActif(trace, trace', avecSonde, pid, pid', depuis, depuis', j, j', accepte);
  }

  lemma TourInactif(trace: seq<Releve>, trace': seq<Releve>, avecSonde: bool, pid: int, depuis: int, j: nat)
    requires EnAttente(trace, avecSonde, pid, depuis, j) && |trace'| == |trace| + 1 && trace'[..|trace|] == trace
    requires Inactif(trace'[|trace|]) && trace'[|trace|].sonde.None?
    requires trace'[|trace|].avant == trace'[|trace|].vuA == trace'[|trace|].luA
    requires Apres(trace, trace'[|trace|].avant)
    ensures EnAttente(trace', avecSonde, 0, depuis, j)
    ensures Fidele(trace', avecSonde) && FaitsDuTour(trace') == [Lu(trace'[|trace|].service)]
    ensures forall n | 0 <= n <= |trace| :: !Accepte(trace', n, avecSonde)
  {
    PasActif(trace, trace', avecSonde);
  }

  lemma TourActif(trace: seq<Releve>, trace': seq<Releve>, avecSonde: bool, pid: int, pid': int,
                  depuis: int, depuis': int, j: nat, j': nat, accepte: bool)
    requires EnAttente(trace, avecSonde, pid, depuis, j) && |trace'| == |trace| + 1 && trace'[..|trace|] == trace
    requires Actif(trace'[|trace|], pid')
    requires trace'[|trace|].avant <= trace'[|trace|].vuA <= trace'[|trace|].luA
    requires Apres(trace, trace'[|trace|].avant)
    requires if pid' == pid then depuis' == depuis && j' == j else depuis' == trace'[|trace|].vuA && j' == |trace|
    requires pid' == pid ==> trace'[|trace|].vuA == trace'[|trace|].luA
    requires trace'[|trace|].sonde.Some? <==> avecSonde && trace'[|trace|].luA - depuis' >= STABILITE
    requires accepte <==> trace'[|trace|].luA - depuis' >= STABILITE
                          && (avecSonde ==> trace'[|trace|].sonde == Some(Some(Pong(true))))
    ensures var r := trace'[|trace|];
            FaitsDuTour(trace') == [Lu(r.service)] + (if pid' == pid then [] else [Heure(r.vuA)]) + [Heure(r.luA)]
                                   + (if r.sonde.Some? then [Pingue(r.sonde.value)] else [])
    ensures Fidele(trace', avecSonde)
    ensures forall n | 0 <= n < |trace| :: !Accepte(trace', n, avecSonde)
    ensures accepte <==> Accepte(trace', |trace|, avecSonde)
    ensures !accepte ==> EnAttente(trace', avecSonde, pid', depuis', j')
  {
    SuitEncore(trace, trace', pid, pid', depuis, depuis', j, j');
    PollActif(trace, trace', avecSonde, pid', depuis', j', trace'[|trace|].luA - depuis' >= STABILITE);
  }

  lemma SuitEncore(trace: seq<Releve>, trace': seq<Releve>, pid: int, pid': int, depuis: int, depuis': int, j: nat,
                   j': nat)
    requires Suit(trace, pid, depuis, j) && |trace'| == |trace| + 1 && trace'[..|trace|] == trace
    requires Actif(trace'[|trace|], pid')
    requires if pid' == pid then depuis' == depuis && j' == j else depuis' == trace'[|trace|].vuA && j' == |trace|
    ensures Suit(trace', pid', depuis', j') && (NouveauPID(trace') <==> pid' != pid)
  {
    assert forall k | 0 <= k < |trace| :: trace[k] == trace'[k];
    assert trace != [] ==> trace'[|trace| - 1] == trace[|trace| - 1];
  }

  /** What one run of the gate did: its polls, its deadline, and the clock that ended it when it refused. */
  datatype Deroule = Deroule(polls: seq<Releve>, echeance: int, fin: int)

  /** The journal grew from `avant` to `apres` by one run of the gate: the first clock sets the deadline, the
      polls are exactly what was read, each was let in before the deadline, and none accepts but the last
      one of a gate crossed; a refusal read a clock past the deadline. */
  ghost predicate Porte(avant: seq<Fait>, apres: seq<Fait>, avecSonde: bool, ok: bool, d: Deroule) {
    var n := |d.polls| - (if ok then 1 else 0);
    && n >= 0
    && Fidele(d.polls, avecSonde)
    && (forall k | 0 <= k < |d.polls| :: d.polls[k].avant < d.echeance)
    && (forall k | 0 <= k < n :: !Accepte(d.polls, k, avecSonde))
    && (ok ==> Accepte(d.polls, n, avecSonde))
    && (!ok ==> d.fin >= d.echeance)
    && (ok ==> apres == avant + [Heure(d.echeance - DELAI_SANTE)] + Faits(d.polls[..n]) + [Heure(d.polls[n].avant)]
                        + FaitsDuTour(d.polls))
    && (!ok ==> apres == avant + [Heure(d.echeance - DELAI_SANTE)] + Faits(d.polls) + [Heure(d.fin)])
  }

  /** One more turn, one more sleep, one more clock. */
  lemma FaitsSuivants(polls: seq<Releve>, trace: seq<Releve>, avant: seq<Fait>, apres: seq<Fait>, debut: int, t: int)
    requires |trace| == |polls| + 1 && trace[..|polls|] == polls
    requires apres == avant + [Heure(debut)] + Faits(polls) + [Heure(trace[|polls|].avant)] + FaitsDuTour(trace)
                      + [Sommeil(PAS_SANTE)] + [Heure(t)]
    ensures apres == avant + [Heure(debut)] + Faits(trace) + [Heure(t)]
  {
    hide FaitsDuTour;
  }

  lemma Franchie(avant: seq<Fait>, apres: seq<Fait>, avecSonde: bool, d: Deroule, n: nat)
    requires |d.polls| == n + 1 && Fidele(d.polls, avecSonde) && Accepte(d.polls, n, avecSonde)
    requires forall k | 0 <= k <= n :: d.polls[k].avant < d.echeance
    requires forall k | 0 <= k < n :: !Accepte(d.polls, k, avecSonde)
    requires apres == avant + [Heure(d.echeance - DELAI_SANTE)] + Faits(d.polls[..n]) + [Heure(d.polls[n].avant)]
                      + FaitsDuTour(d.polls)
    ensures Porte(avant, apres, avecSonde, true, d)
  {
    hide FaitsDuTour, Fidele, Accepte, Faits;
  }

  lemma Refusee(avant: seq<Fait>, apres: seq<Fait>, avecSonde: bool, pid: int, depuis: int, j: nat, d: Deroule)
    requires EnAttente(d.polls, avecSonde, pid, depuis, j) && d.fin >= d.echeance
    requires forall k | 0 <= k < |d.polls| :: d.polls[k].avant < d.echeance
    requires apres == avant + [Heure(d.echeance - DELAI_SANTE)] + Faits(d.polls) + [Heure(d.fin)]
    ensures Porte(avant, apres, avecSonde, false, d)
  {
    hide FaitsDuTour, Fidele, Accepte, Faits;
  }

  /** `porteDeSante` */
  method PorteDeSante(m: Monde, avecSonde: bool) returns (ok: bool, ghost d: Deroule)
    modifies m
    ensures Porte(old(m.journal), m.journal, avecSonde, ok, d)
    ensures old(m.maintenant) + DELAI_SANTE <= d.echeance
    ensures !ok ==> d.echeance <= d.fin == m.maintenant
  {
    hide Fidele, Accepte, FaitsDuTour, Faits, Porte;
    ghost var avant := m.journal;
    var debut := m.Horloge();
    var fin := debut + DELAI_SANTE;
    var pid, depuis := 0, debut;
    ghost var trace, j: nat := [], 0;
    var t := m.Horloge();
    Commence(avecSonde, depuis, avant, debut, t);
    while t < fin
      invariant t == m.maintenant && Apres(trace, t)
      invariant EnAttente(trace, avecSonde, pid, depuis, j)
      invariant forall k | 0 <= k < |trace| :: trace[k].avant < fin
      invariant m.journal == avant + [Heure(debut)] + Faits(trace) + [Heure(t)]
      decreases fin - t
    {
      ghost var polls := trace;
      ok, pid, depuis, trace, j := UnTour(m, avecSonde, pid, depuis, trace, j);
      assert forall k | 0 <= k < |polls| :: trace[k] == polls[k];
      if ok {
        d := Deroule(trace, fin, t);
        Franchie(avant, m.journal, avecSonde, d, |polls|);
        return;
      }
      m.Dormir(PAS_SANTE);
      t := m.Horloge();
      FaitsSuivants(polls, trace, avant, m.journal, debut, t);
    }
    ok, d := false, Deroule(trace, fin, t);
    Refusee(avant, m.journal, avecSonde, pid, depuis, j, d);
  }

  lemma Commence(avecSonde: bool, depuis: int, avant: seq<Fait>, debut: int, t: int)
    ensures EnAttente([], avecSonde, 0, depuis, 0)
    ensures avant + [Heure(debut)] + [Heure(t)] == avant + [Heure(debut)] + Faits([]) + [Heure(t)]
  {
  }

  lemma PrefixeStable(avant: seq<Releve>, trace: seq<Releve>, n: nat)
    requires |trace| == |avant| + 1 && trace[..|avant|] == avant && n < |avant|
    ensures Stable(avant, n) <==> Stable(trace, n)
  {
    assert forall k | 0 <= k <= n :: avant[k] == trace[k];
    forall j: nat, pid: int ensures Tient(avant, j, n, pid) <==> Tient(trace, j, n, pid) {}
  }

  /** A trace stays dated and ordered with one more poll. */
  lemma DateEncore(avant: seq<Releve>, trace: seq<Releve>, avecSonde: bool)
    requires Fidele(avant, avecSonde) && |trace| == |avant| + 1 && trace[..|avant|] == avant
    requires Date(trace) && Apres(avant, trace[|avant|].avant)
    ensures forall k | 0 < k <= |trace| :: Date(trace[..k])
    ensures forall k | 0 <= k < |trace| :: trace[k].avant <= trace[k].vuA <= trace[k].luA
    ensures forall j, k | 0 <= j < k < |trace| :: trace[j].luA + PAS_SANTE <= trace[k].avant
  {
    forall k | 0 < k <= |trace| ensures Date(trace[..k]) {
      if k == |trace| {
        assert trace[..k] == trace;
      } else {
        assert trace[..k] == avant[..k];
      }
    }
    assert forall k | 0 <= k < |avant| :: trace[k] == avant[k];
  }

  lemma PasActif(avant: seq<Releve>, trace: seq<Releve>, avecSonde: bool)
    requires Fidele(avant, avecSonde) && |trace| == |avant| + 1 && trace[..|avant|] == avant
    requires Inactif(trace[|avant|]) && Date(trace) && trace[|avant|].sonde.None?
    requires Apres(avant, trace[|avant|].avant)
    requires forall n | 0 <= n < |avant| :: !Accepte(avant, n, avecSonde)
    ensures Fidele(trace, avecSonde) && !Stable(trace, |avant|)
    ensures forall n | 0 <= n < |trace| :: !Accepte(trace, n, avecSonde)
  {
    DateEncore(avant, trace, avecSonde);
    forall n | 0 <= n < |avant|
      ensures trace[n] == avant[n] && (Stable(avant, n) <==> Stable(trace, n)) && !Accepte(trace, n, avecSonde)
    {
      PrefixeStable(avant, trace, n);
      assert !Accepte(avant, n, avecSonde);
    }
    forall j: nat, pid: int ensures !Tient(trace, j, |avant|, pid) {
      assert !Actif(trace[|avant|], pid);
    }
  }

  lemma PollActif(avant: seq<Releve>, trace: seq<Releve>, avecSonde: bool, pid: int, depuis: int, j: nat, stable: bool)
    requires Fidele(avant, avecSonde) && |trace| == |avant| + 1 && trace[..|avant|] == avant
    requires Suit(trace, pid, depuis, j) && pid > 0
    requires Date(trace) && Apres(avant, trace[|avant|].avant)
    requires stable == (trace[|avant|].luA - depuis >= STABILITE)
    requires trace[|avant|].sonde.Some? <==> stable && avecSonde
    requires forall n | 0 <= n < |avant| :: !Accepte(avant, n, avecSonde)
    ensures Fidele(trace, avecSonde) && (Stable(trace, |avant|) <==> stable)
    ensures forall n | 0 <= n < |avant| :: !Accepte(trace, n, avecSonde)
  {
    DateEncore(avant, trace, avecSonde);
    forall n | 0 <= n < |avant|
      ensures trace[n] == avant[n] && (Stable(avant, n) <==> Stable(trace, n)) && !Accepte(trace, n, avecSonde)
    {
      PrefixeStable(avant, trace, n);
      assert !Accepte(avant, n, avecSonde);
    }
    var n := |avant|;
    assert j == 0 || !Actif(trace[j - 1], pid);
    forall i: nat, q: int | Tient(trace, i, n, q) ensures q == pid && j <= i {
      assert Actif(trace[n], q);
    }
    if stable { assert Tient(trace, j, n, pid); }
  }

  /** A run of the gate reads something, and ends on the probe, answering that the tunnel is up, exactly when it is
      crossed with its probe. */
  lemma FinDePorte(avant: seq<Fait>, apres: seq<Fait>, avecSonde: bool, ok: bool, d: Deroule)
    requires Porte(avant, apres, avecSonde, ok, d)
    ensures |apres| > |avant|
    ensures apres[|apres| - 1] == Pingue(Some(Pong(true))) <==> avecSonde && ok
  {
    if ok {
      var n := |d.polls| - 1;
      assert Accepte(d.polls, n, avecSonde);
      var j: nat, pid: int :| Tient(d.polls, j, n, pid) && d.polls[n].luA - d.polls[j].vuA >= STABILITE;
      assert Actif(d.polls[n], pid);
    }
  }

  /** The journal of a crossed gate from the turn `j` on: the facts of that turn, then a rest in which the service
      only shows the PID it held. */
  lemma {:induction false} DepuisLeTour(trace: seq<Releve>, j: nat, pid: int)
    returns (tete: seq<Fait>, reste: seq<Fait>)
    requires j < |trace| && forall k | j <= k < |trace| :: Actif(trace[k], pid)
    ensures var n := |trace| - 1;
            Faits(trace[..n]) + [Heure(trace[n].avant)] + FaitsDuTour(trace)
            == tete + FaitsDuTour(trace[..j + 1]) + reste
    ensures forall f | f in reste && f.Lu? :: f == Lu(Some(Service(true, pid)))
  {
    hide FaitsDuTour, Faits, Actif;
    var n := |trace| - 1;
    if j == n {
      tete, reste := Faits(trace[..n]) + [Heure(trace[n].avant)], [];
      assert trace[..j + 1] == trace;
    } else {
      var t := trace[..n];
      tete, reste := DepuisLeTour(t, j, pid);
      assert t[..j + 1] == trace[..j + 1];
      var h, f := [Heure(trace[n].avant)], FaitsDuTour(trace);
      LuDuTour(trace, pid);
      UnTourDePlus(t);
      EnSuite(tete, FaitsDuTour(trace[..j + 1]), reste, [Sommeil(PAS_SANTE)], h, f);
      reste := reste + [Sommeil(PAS_SANTE)] + h + f;
    }
  }

  lemma EnSuite<T>(a: seq<T>, b: seq<T>, c: seq<T>, d: seq<T>, e: seq<T>, f: seq<T>)
    ensures a + b + c + d + e + f == a + b + (c + d + e + f)
  {
  }

  lemma UnTourDePlus(trace: seq<Releve>)
    requires trace != []
    ensures var n := |trace| - 1;
            Faits(trace) == Faits(trace[..n]) + [Heure(trace[n].avant)] + FaitsDuTour(trace) + [Sommeil(PAS_SANTE)]
  {
    hide FaitsDuTour;
  }

  lemma LuDuTour(trace: seq<Releve>, pid: int)
    requires trace != [] && Actif(trace[|trace| - 1], pid)
    ensures forall f | f in FaitsDuTour(trace) && f.Lu? :: f == Lu(Some(Service(true, pid)))
  {
  }

  /** What a crossed gate means, read in the journal of the machine alone: the service was seen active with some PID,
      a clock was read, no other answer of the service came after that, and a clock read at least thirty seconds
      later came last, followed, when the probe was asked for, by its answer that the tunnel is up. */
  lemma FranchieDit(avant: seq<Fait>, apres: seq<Fait>, avecSonde: bool, d: Deroule)
    returns (a: nat, z: nat, pid: int, t: int, u: int)
    requires Porte(avant, apres, avecSonde, true, d)
    ensures |avant| <= a && a + 1 < z && z + (if avecSonde then 2 else 1) == |apres| && pid > 0
    ensures apres[a] == Lu(Some(Service(true, pid))) && apres[a + 1] == Heure(t)
    ensures forall k | a <= k < |apres| && apres[k].Lu? :: apres[k] == Lu(Some(Service(true, pid)))
    ensures apres[z] == Heure(u) && u - t >= 30
    ensures avecSonde ==> apres[z + 1] == Pingue(Some(Pong(true)))
  {
    hide Faits, Fidele, FaitsDuTour;
    var n := |d.polls| - 1;
    var j: nat;
    j, pid :| Tient(d.polls, j, n, pid) && d.polls[n].luA - d.polls[j].vuA >= STABILITE;
    t, u := d.polls[j].vuA, d.polls[n].luA;
    var tete, reste := DepuisLeTour(d.polls, j, pid);
    var debut := avant + [Heure(d.echeance - DELAI_SANTE)];
    var f := FaitsDuTour(d.polls[..j + 1]);
    AuBout(debut, Faits(d.polls[..n]), [Heure(d.polls[n].avant)], FaitsDuTour(d.polls), tete, f, reste);
    assert apres == debut + tete + f + reste;
    a := |debut + tete|;
    assert Actif(d.polls[j], pid) && d.polls[..j + 1][j] == d.polls[j];
    DebutDuTour(d.polls[..j + 1], pid) by { DateEn(d.polls, avecSonde, j + 1); }
    z := |apres| - (if avecSonde then 2 else 1);
    assert apres[a] == f[0] && apres[a + 1] == f[1];
    FinDuTour(d.polls, avecSonde);
  }

  lemma DebutDuTour(trace: seq<Releve>, pid: int)
    requires trace != [] && Date(trace) && Actif(trace[|trace| - 1], pid)
    ensures var f, r := FaitsDuTour(trace), trace[|trace| - 1];
            && |f| >= 2 && f[0] == Lu(Some(Service(true, pid))) && f[1] == Heure(r.vuA)
            && forall k | 0 <= k < |f| && f[k].Lu? :: f[k] == Lu(Some(Service(true, pid)))
  {
  }

  /** What a refusal means, read in the journal: from the first clock to the last, three minutes at least; and the gate
      sleeps two seconds between its turns. */
  lemma RefuseeDite(avant: seq<Fait>, apres: seq<Fait>, avecSonde: bool, d: Deroule) returns (t: int, u: int)
    requires Porte(avant, apres, avecSonde, false, d)
    ensures |apres| >= |avant| + 2 && apres[|avant|] == Heure(t) && apres[|apres| - 1] == Heure(u) && u - t >= 180
    ensures forall k | |avant| <= k < |apres| && apres[k].Sommeil? :: apres[k] == Sommeil(2)
  {
    hide Faits;
    t, u := d.echeance - DELAI_SANTE, d.fin;
    SommeilsDits(d.polls);
  }

  lemma {:induction false} SommeilsDits(trace: seq<Releve>)
    ensures forall f | f in Faits(trace) && f.Sommeil? :: f == Sommeil(2)
    ensures trace != [] ==> exists f :: f in Faits(trace) && f.Sommeil?
  {
    if trace != [] {
      hide FaitsDuTour;
      var n := |trace| - 1;
      SommeilsDits(trace[..n]);
      UnTourDePlus(trace);
      SansSommeil(trace);
      assert Sommeil(PAS_SANTE) in Faits(trace);
    }
  }

  lemma SansSommeil(trace: seq<Releve>)
    requires trace != []
    ensures forall f | f in FaitsDuTour(trace) :: !f.Sommeil?
  {
  }

  lemma FinDuTour(trace: seq<Releve>, avecSonde: bool)
    requires trace != [] && Fidele(trace, avecSonde) && Accepte(trace, |trace| - 1, avecSonde)
    ensures var f, n := FaitsDuTour(trace), |trace| - 1;
            && |f| >= 2 && f[|f| - (if avecSonde then 2 else 1)] == Heure(trace[n].luA)
            && (avecSonde ==> f[|f| - 1] == Pingue(Some(Pong(true))))
  {
    var n := |trace| - 1;
    var j: nat, pid: int :| Tient(trace, j, n, pid) && trace[n].luA - trace[j].vuA >= STABILITE;
    assert Actif(trace[n], pid);
  }

  lemma AuBout<T>(debut: seq<T>, x: seq<T>, y: seq<T>, z: seq<T>, tete: seq<T>, f: seq<T>, reste: seq<T>)
    requires x + y + z == tete + f + reste
    ensures debut + x + y + z == debut + tete + f + reste
  {
    assert debut + x + y + z == debut + (x + y + z);
    assert debut + tete + f + reste == debut + (tete + f + reste);
  }

  lemma DateEn(trace: seq<Releve>, avecSonde: bool, k: nat)
    requires Fidele(trace, avecSonde) && 0 < k <= |trace|
    ensures Date(trace[..k])
  {
  }

  /** A service that is seen with one PID from poll `j` on and answers every probe crosses the gate, provided
      that poll comes STABILITE, and one turn, before the deadline: `tour` bounds the time from the last
      reading of a refusing gate to the clock that ended it. */
  lemma ServiceStableAccepte(avant: seq<Fait>, apres: seq<Fait>, avecSonde: bool, ok: bool, d: Deroule,
                             pid: int, j: nat, tour: nat)
    requires Porte(avant, apres, avecSonde, ok, d) && j < |d.polls|
    requires forall k | j <= k < |d.polls| :: Actif(d.polls[k], pid)
    requires forall k | j <= k < |d.polls| && d.polls[k].sonde.Some? :: d.polls[k].sonde == Some(Some(Pong(true)))
    requires !ok ==> d.fin - d.polls[|d.polls| - 1].luA <= tour
    requires d.echeance - d.polls[j].vuA >= STABILITE + tour
    ensures ok
  {
    var n := |d.polls| - 1;
    assert Tient(d.polls, j, n, pid);
    assert !ok ==> Stable(d.polls, n) && !Accepte(d.polls, n, avecSonde);
  }
}
