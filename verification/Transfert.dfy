/** Receiving a policy fragment by fragment (fetch.go): one request, seen as a step system. */
module Transfert {
  import opened Options
  import opened Texte

  datatype Manifeste = Manifeste(version: int, fingerprint: string, chunkCount: int, totalSize: int,
                                 checksum: string, signature: string, exigee: bool)

  /** The manifest fields of a request that has received none. */
  const VIERGE := Manifeste(0, "", 0, 0, "", "", false)

  /** A decoded policy; `document` stands for everything the transfer does not look at. */
  datatype Politique = Politique(fingerprint: string, version: int, username: string, document: string)

  datatype Outcome =
    | Livree(policy: Politique)
    | Inchangee
    | Refus(code: string)
    | Rien

  /** What the agent calls without looking inside: SHA-256, the signature check, the JSON decoder. */
  datatype Outils = Outils(
    checksum: string -> string,
    signatureValide: (Manifeste, string, string) -> bool,
    decoder: string -> Option<Politique>)

  /** `DecodePolicy` refuses a document without fingerprint (policy.go:185-187). */
  ghost predicate OutilsSains(o: Outils) {
    forall s :: o.decoder(s).Some? ==> TrimSpace(o.decoder(s).value.fingerprint) != ""
  }

  /** One pending request: its manifest, its fragments, what its channel received, the 05_09 it sent. */
  datatype Vue = Vue(
    manifeste: Manifeste,
    chunks: map<int, string>,
    received: int,
    done: seq<Outcome>,
    demandes: seq<int>)

  const NEUVE := Vue(VIERGE, map[], 0, [], [])

  // --- the handlers, on one request ------------------------------------------------

  function Clore(v: Vue, o: Outcome): Vue {
    if v.done != [] then v else v.(done := [o])
  }

  function Demander(v: Vue, index: int, envoi: bool): Vue {
    if envoi then v.(demandes := v.demandes + [index]) else Clore(v, Refus("transport"))
  }

  /** `handleManifest`; the two signature lines are looked up by prefix at the end of the frame
      (signature.go), which is not part of this model: they come already read. */
  function RecevoirManifeste(v: Vue, lignes: seq<string>, signature: string, exigee: bool, envoi: bool): Vue {
    match Atoi(TrimSpace(LigneA(lignes, 2)))
    case Illisible => Clore(v, Refus("malformed_manifest"))
    case Lu(n) =>
      if n <= 0 then Clore(v, Refus("malformed_manifest"))
      else
        var m := Manifeste(AtoiBorne(TrimSpace(LigneA(lignes, 0))), TrimSpace(LigneA(lignes, 1)), n,
                           AtoiBorne(TrimSpace(LigneA(lignes, 3))), TrimSpace(LigneA(lignes, 5)), signature, exigee);
        Demander(v.(manifeste := m, chunks := map[], received := 0), 0, envoi)
  }

  /** The fragments 0..n-1 joined in index order, None when one is missing. */
  function Reunir(chunks: map<int, string>, n: int): Option<string> {
    if n <= 0 then Some("")
    else
      match Reunir(chunks, n - 1)
      case None => None
      case Some(s) => if n - 1 in chunks then Some(s + chunks[n - 1]) else None
  }

  /** `assemble`: the gates, in the order of the source.  Scope and account are those of the last frame. */
  function Issue(v: Vue, scope: string, user: string, o: Outils): Outcome {
    var m := v.manifeste;
    match Reunir(v.chunks, m.chunkCount)
    case None => Refus("incomplete")
    case Some(payload) =>
      if m.totalSize > 0 && |payload| != m.totalSize then Refus("size_mismatch")
      else if m.checksum != "" && o.checksum(payload) != m.checksum then Refus("checksum_mismatch")
      else if !o.signatureValide(m, scope, user) then Refus("signature_invalide")
      else
        match o.decoder(payload)
        case None => Refus("malformed_policy")
        case Some(p) =>
          if p.fingerprint != m.fingerprint then Refus("fingerprint_mismatch")
          else Livree(p.(version := m.version, username := if p.username == "" then user else p.username))
  }

  /** The outcome of a reassembly, in plain words: a missing fragment, then a wrong size, then a wrong checksum, then a
      refused signature, then an unreadable document, then another fingerprint; and otherwise the policy. */
  lemma IssueDite(v: Vue, scope: string, user: string, o: Outils)
    ensures var m, r := v.manifeste, Reunir(v.chunks, v.manifeste.chunkCount);
            if r.None? then Issue(v, scope, user, o) == Refus("incomplete")
            else
              var taille := m.totalSize <= 0 || m.totalSize == |r.value|;
              var somme := m.checksum == "" || m.checksum == o.checksum(r.value);
              var signee, p := o.signatureValide(m, scope, user), o.decoder(r.value);
              && (Issue(v, scope, user, o) == Refus("size_mismatch") <==> !taille)
              && (Issue(v, scope, user, o) == Refus("checksum_mismatch") <==> taille && !somme)
              && (Issue(v, scope, user, o) == Refus("signature_invalide") <==> taille && somme && !signee)
              && (Issue(v, scope, user, o) == Refus("malformed_policy") <==> taille && somme && signee && p.None?)
              && (Issue(v, scope, user, o) == Refus("fingerprint_mismatch") <==>
                    taille && somme && signee && p.Some? && p.value.fingerprint != m.fingerprint)
              && (Issue(v, scope, user, o).Livree? <==>
                    taille && somme && signee && p.Some? && p.value.fingerprint == m.fingerprint)
  {
    hide Reunir;
    var a, b, c, d, e := "size_mismatch", "checksum_mismatch", "signature_invalide", "malformed_policy",
                         "fingerprint_mismatch";
    assert |a| == 13 && |b| == 17 && |c| == 18 && |d| == 16 && |e| == 20;
  }

  /** The data of a 05_10 frame: everything from its sixth line on, line breaks included. */
  function Donnees(lignes: seq<string>): string {
    if |lignes| > 5 then Join(lignes[5..]) else ""
  }

  /** The first copy of a fragment counts, later ones do not. */
  function Ranger(v: Vue, index: int, donnees: string): Vue {
    if index in v.chunks then v
    else v.(chunks := v.chunks[index := donnees], received := v.received + 1)
  }

  function PorteeDe(lignes: seq<string>): string { TrimSpace(LigneA(lignes, 0)) }
  function CompteDe(lignes: seq<string>): string { TrimSpace(LigneA(lignes, 1)) }

  /** `handleChunk`: the frame's own fragment count, when positive, prevails over the manifest's to decide
      whether to ask for more; `assemble` goes by the manifest. */
  function RecevoirFragment(v: Vue, lignes: seq<string>, envoi: bool, o: Outils): Vue {
    match Atoi(TrimSpace(LigneA(lignes, 3)))
    case Illisible => v
    case Lu(index) =>
      if v.manifeste.fingerprint != TrimSpace(LigneA(lignes, 2)) then v
      else
        var w := Ranger(v, index, Donnees(lignes));
        var annonce := AtoiBorne(TrimSpace(LigneA(lignes, 4)));
        var total := if annonce > 0 then annonce else v.manifeste.chunkCount;
        if w.received < total then Demander(w, index + 1, envoi)
        else Clore(w, Issue(w, PorteeDe(lignes), CompteDe(lignes), o))
  }

  /** A fragment received again changes nothing of what is held, and the next one is asked for again, or the request
      ends, by the count held before. */
  lemma FragmentDouble(v: Vue, lignes: seq<string>, envoi: bool, o: Outils, index: int)
    requires Atoi(TrimSpace(LigneA(lignes, 3))) == Lu(index) && index in v.chunks && v.done == []
    requires TrimSpace(LigneA(lignes, 2)) == v.manifeste.fingerprint
    ensures var w, annonce := RecevoirFragment(v, lignes, envoi, o), AtoiBorne(TrimSpace(LigneA(lignes, 4)));
            && w.manifeste == v.manifeste && w.chunks == v.chunks && w.received == v.received
            && (v.received < (if annonce > 0 then annonce else v.manifeste.chunkCount) ==>
                  if envoi then w.demandes == v.demandes + [index + 1] && w.done == []
                  else w.demandes == v.demandes && w.done == [Refus("transport")])
            && (v.received >= (if annonce > 0 then annonce else v.manifeste.chunkCount) ==>
                  w.demandes == v.demandes && |w.done| == 1)
  {
    hide Atoi, AtoiBorne, TrimSpace, LigneA, Donnees, Issue;
  }

  /** Everything that can happen to a pending request.  `envoi`: the 05_09 the event triggers leaves. */
  datatype Evenement =
    | EManifeste(lignes: seq<string>, signature: string, exigee: bool, envoi: bool)
    | EFragment(lignes: seq<string>, envoi: bool)
    | EFin(issue: Outcome)

  /** A request that is over is no longer registered: frames for it go unanswered. */
  function Avancer(v: Vue, e: Evenement, o: Outils): Vue {
    if v.done != [] then v
    else
      match e
      case EManifeste(l, s, x, envoi) => RecevoirManifeste(v, l, s, x, envoi)
      case EFragment(l, envoi) => RecevoirFragment(v, l, envoi, o)
      case EFin(issue) => Clore(v, issue)
  }

  function Derouler(run: seq<Evenement>, o: Outils): Vue {
    if run == [] then NEUVE else Avancer(Derouler(run[..|run| - 1], o), run[|run| - 1], o)
  }

  // --- at most one outcome ------------------------------------------------------------

  /** Each request receives at most one outcome, and keeps it whatever arrives afterwards. */
  lemma {:induction false} UneSeuleIssue(run: seq<Evenement>, suite: seq<Evenement>, o: Outils)
    ensures |Derouler(run, o).done| <= 1
    ensures Derouler(run, o).done != [] ==> Derouler(run + suite, o) == Derouler(run, o)
    decreases |run| + |suite|, |suite|
  {
    if run != [] { UneSeuleIssue(run[..|run| - 1], [], o); }
    if suite == [] {
      assert run + suite == run;
    } else {
      UneSeuleIssue(run, suite[..|suite| - 1], o);
      assert (run + suite)[..|run + suite| - 1] == run + suite[..|suite| - 1];
    }
  }

  // --- what a delivered policy is, read from the history alone -------------------------

  /** The manifest an event brings, if it is one and well formed. */
  function ManifesteDe(e: Evenement): Option<Manifeste> {
    if !e.EManifeste? then None
    else
      match Atoi(TrimSpace(LigneA(e.lignes, 2)))
      case Illisible => None
      case Lu(n) =>
        if n <= 0 then None
        else Some(Manifeste(AtoiBorne(TrimSpace(LigneA(e.lignes, 0))), TrimSpace(LigneA(e.lignes, 1)), n,
                            AtoiBorne(TrimSpace(LigneA(e.lignes, 3))), TrimSpace(LigneA(e.lignes, 5)), e.signature,
                                e.exigee))
  }

  ghost function DernierManifeste(run: seq<Evenement>): Manifeste {
    if run == [] then VIERGE
    else match ManifesteDe(run[|run| - 1])
      case Some(m) => m
      case None => DernierManifeste(run[..|run| - 1])
  }

  ghost predicate PorteLeFragment(e: Evenement, m: Manifeste, index: int) {
    e.EFragment? && Atoi(TrimSpace(LigneA(e.lignes, 3))) == Lu(index) && TrimSpace(LigneA(e.lignes, 2)) == m.fingerprint
  }

  /** The first copy of a fragment received since the latest manifest, carrying its fingerprint. */
  ghost function PremiereCopie(run: seq<Evenement>, index: int): Option<string> {
    if run == [] then None
    else
      var e := run[|run| - 1];
      if ManifesteDe(e).Some? then None
      else
        match PremiereCopie(run[..|run| - 1], index)
        case Some(d) => Some(d)
        case None => if PorteLeFragment(e, DernierManifeste(run), index) then Some(Donnees(e.lignes)) else None
  }

  ghost predicate Retrace(v: Vue, run: seq<Evenement>) {
    && v.manifeste == DernierManifeste(run)
    && v.received == |v.chunks|
    && (forall i :: i in v.chunks <==> PremiereCopie(run, i).Some?)
    && (forall i | i in v.chunks :: PremiereCopie(run, i) == Some(v.chunks[i]))
  }

  lemma RetraceManifeste(v: Vue, run: seq<Evenement>, e: Evenement, o: Outils)
    requires v.done == [] && ManifesteDe(e).Some?
    ensures Retrace(Avancer(v, e, o), run + [e])
  {
    assert (run + [e])[|run|] == e;
  }

  lemma RetraceSansEffet(v: Vue, run: seq<Evenement>, e: Evenement)
    requires Retrace(v, run) && ManifesteDe(e).None? && forall i :: !PorteLeFragment(e, v.manifeste, i)
    ensures Retrace(v, run + [e])
  {
    hide Atoi, AtoiBorne, TrimSpace, LigneA, Donnees;
    var r := run + [e];
    assert r[..|r| - 1] == run && r[|r| - 1] == e;
  }

  lemma RetraceFragment(v: Vue, run: seq<Evenement>, e: Evenement, index: int)
    requires Retrace(v, run) && PorteLeFragment(e, v.manifeste, index)
    ensures Retrace(Ranger(v, index, Donnees(e.lignes)), run + [e])
  {
    DernierSansManifeste(run, e);
    forall i ensures PremiereCopie(run + [e], i) == if PremiereCopie(run, i).Some? then PremiereCopie(run, i)
                                                    else if i == index then Some(Donnees(e.lignes)) else None
    {
      CopieSuivante(run, e, index, i);
    }
    hide PremiereCopie, DernierManifeste, PorteLeFragment, Donnees;
  }

  lemma DernierSansManifeste(run: seq<Evenement>, e: Evenement)
    requires ManifesteDe(e).None?
    ensures DernierManifeste(run + [e]) == DernierManifeste(run)
  {
    hide ManifesteDe;
    assert (run + [e])[..|run|] == run;
  }

  lemma CopieSuivante(run: seq<Evenement>, e: Evenement, index: int, i: int)
    requires PorteLeFragment(e, DernierManifeste(run), index)
    ensures PremiereCopie(run + [e], i) == if PremiereCopie(run, i).Some? then PremiereCopie(run, i)
                                           else if i == index then Some(Donnees(e.lignes)) else None
  {
    hide Atoi, TrimSpace, LigneA, Donnees, DernierManifeste;
    DernierSansManifeste(run, e);
    assert (run + [e])[..|run|] == run;
  }

  /** Asking for a fragment or closing the request moves nothing else. */
  lemma MemeTrace(v: Vue, w: Vue, run: seq<Evenement>)
    requires Retrace(v, run) && w.manifeste == v.manifeste && w.chunks == v.chunks && w.received == v.received
    ensures Retrace(w, run)
  {
  }

  lemma RetraceUnPas(v: Vue, run: seq<Evenement>, e: Evenement, o: Outils)
    requires v.done == [] && Retrace(v, run)
    ensures e.EFragment? || Avancer(v, e, o).done == [] ==> Retrace(Avancer(v, e, o), run + [e])
  {
    hide Atoi, AtoiBorne, TrimSpace, LigneA, Donnees, Issue, Retrace;
    match e
    case EManifeste(l, _, _, _) =>
      if ManifesteDe(e).Some? { RetraceManifeste(v, run, e, o); }
    case EFragment(l, _) =>
      match Atoi(TrimSpace(LigneA(l, 3))) {
        case Illisible => RetraceSansEffet(v, run, e);
        case Lu(index) =>
          if v.manifeste.fingerprint != TrimSpace(LigneA(l, 2)) {
            RetraceSansEffet(v, run, e);
          } else {
            RetraceFragment(v, run, e, index);
            MemeTrace(Ranger(v, index, Donnees(l)), Avancer(v, e, o), run + [e]);
          }
      }
    case EFin(_) =>
  }

  /** While a request is pending, what it holds is what its history says. */
  lemma {:induction false} HistoireRetracee(run: seq<Evenement>, o: Outils)
    requires Derouler(run, o).done == []
    ensures Retrace(Derouler(run, o), run)
  {
    if run != [] {
      var n := |run| - 1;
      var v := Derouler(run[..n], o);
      HistoireRetracee(run[..n], o);
      RetraceUnPas(v, run[..n], run[n], o);
      assert run == run[..n] + [run[n]];
    }
  }

  /** Fragments 0..n-1, each the first copy received since the latest manifest, joined in order. */
  ghost function Reassemblage(run: seq<Evenement>, n: int): Option<string> {
    if n <= 0 then Some("")
    else match Reassemblage(run, n - 1)
      case None => None
      case Some(s) => if PremiereCopie(run, n - 1).Some? then Some(s + PremiereCopie(run, n - 1).value) else None
  }

  lemma {:induction false} ReunirRetrace(v: Vue, run: seq<Evenement>, n: int)
    requires Retrace(v, run)
    ensures Reunir(v.chunks, n) == Reassemblage(run, n)
  {
    if n > 0 { ReunirRetrace(v, run, n - 1); }
  }

  /** A policy is only ever delivered by a fragment, under a manifest received before, and it is then the
      decoding of that manifest's fragments reassembled, of the announced size and checksum when they
      are announced, signature accepted, under the announced fingerprint and version. */
  lemma LivraisonSure(run: seq<Evenement>, e: Evenement, o: Outils, p: Politique)
    requires OutilsSains(o)
    requires Derouler(run, o).done == []
    requires Derouler(run + [e], o).done == [Livree(p)] && !e.EFin?
    ensures e.EFragment?
    ensures exists i | 0 <= i < |run| :: ManifesteDe(run[i]) == Some(DernierManifeste(run))
    ensures var m := DernierManifeste(run);
            var payload := Reassemblage(run + [e], m.chunkCount);
            && m.chunkCount > 0
            && payload.Some?
            && (m.totalSize > 0 ==> |payload.value| == m.totalSize)
            && (m.checksum != "" ==> o.checksum(payload.value) == m.checksum)
            && o.signatureValide(m, PorteeDe(e.lignes), CompteDe(e.lignes))
            && o.decoder(payload.value).Some?
            && o.decoder(payload.value).value.fingerprint == m.fingerprint == p.fingerprint
            && p == o.decoder(payload.value).value.(version := m.version,
                 username := if o.decoder(payload.value).value.username == "" then CompteDe(e.lignes)
                             else o.decoder(payload.value).value.username)
  {
    hide Atoi, AtoiBorne, TrimSpace, LigneA, Donnees, Reassemblage, PremiereCopie, Avancer, Issue, DernierManifeste,
         ManifesteDe, PorteeDe, CompteDe;
    var v := Derouler(run, o);
    var r := run + [e];
    assert r[..|r| - 1] == run && r[|r| - 1] == e;
    var w := Avancer(v, e, o);
    LivreeParFragment(v, e, o, p);
    HistoireRetracee(run, o);
    RetraceUnPas(v, run, e, o);
    assert w.manifeste == v.manifeste == DernierManifeste(run);
    ReunirRetrace(w, r, w.manifeste.chunkCount);
    IssueLivree(w, PorteeDe(e.lignes), CompteDe(e.lignes), o, p);
    PasSansManifeste(w, PorteeDe(e.lignes), CompteDe(e.lignes), o, p);
    ManifesteRecu(run);
  }

  /** The empty manifest of a new request delivers nothing: no policy has an empty fingerprint. */
  lemma PasSansManifeste(w: Vue, scope: string, user: string, o: Outils, p: Politique)
    requires OutilsSains(o) && Issue(w, scope, user, o) == Livree(p)
    ensures w.manifeste != VIERGE
  {
    hide Reunir;
    TrimNette("");
  }

  lemma LivreeParFragment(v: Vue, e: Evenement, o: Outils, p: Politique)
    requires v.done == [] && Avancer(v, e, o).done == [Livree(p)] && !e.EFin?
    ensures e.EFragment? && Avancer(v, e, o).manifeste == v.manifeste
    ensures Issue(Avancer(v, e, o), PorteeDe(e.lignes), CompteDe(e.lignes), o) == Livree(p)
  {
    hide Atoi, AtoiBorne, TrimSpace, LigneA, Donnees;
  }

  lemma IssueLivree(w: Vue, scope: string, user: string, o: Outils, p: Politique)
    requires Issue(w, scope, user, o) == Livree(p)
    ensures var m := w.manifeste;
            var payload := Reunir(w.chunks, m.chunkCount);
            && payload.Some?
            && (m.totalSize > 0 ==> |payload.value| == m.totalSize)
            && (m.checksum != "" ==> o.checksum(payload.value) == m.checksum)
            && o.signatureValide(m, scope, user)
            && o.decoder(payload.value).Some?
            && o.decoder(payload.value).value.fingerprint == m.fingerprint == p.fingerprint
            && p == o.decoder(payload.value).value.(version := m.version,
                 username := if o.decoder(payload.value).value.username == "" then user
                             else o.decoder(payload.value).value.username)
  {
    hide Reunir;
  }

  lemma {:induction false} ManifesteRecu(run: seq<Evenement>)
    requires DernierManifeste(run) != VIERGE
    ensures exists i | 0 <= i < |run| :: ManifesteDe(run[i]) == Some(DernierManifeste(run))
    ensures DernierManifeste(run).chunkCount > 0
  {
    var n := |run| - 1;
    if ManifesteDe(run[n]).None? {
      ManifesteRecu(run[..n]);
      var i :| 0 <= i < n && ManifesteDe(run[..n][i]) == Some(DernierManifeste(run));
      assert run[i] == run[..n][i];
    }
  }

  // --- a transfer without loss ----------------------------------------------------------

  /** The content of a manifest as the server writes it (gpo_manager/gpoTrameManager.go:187-202), the account of a
      user apart; other lines may follow. */
  function TrameManifeste(version: nat, fp: string, total: nat, taille: nat, modules: nat, somme: string,
                          suite: seq<string>): string
  {
    Join([Itoa(version), fp, Itoa(total), Itoa(taille), Itoa(modules), somme] + suite)
  }

  /** Reading the frame back gives every field its value. */
  lemma ManifesteRelu(version: nat, fp: string, total: nat, taille: nat, modules: nat, somme: string,
                      suite: seq<string>, signature: string, exigee: bool, envoi: bool)
    requires version <= MAX_INT && 0 < total <= MAX_INT && taille <= MAX_INT && modules <= MAX_INT
    requires UneLigne(fp) && UneLigne(somme) && TrimSpace(fp) == fp && TrimSpace(somme) == somme
    requires forall i | 0 <= i < |suite| :: UneLigne(suite[i])
    ensures ManifesteDe(EManifeste(Split(TrameManifeste(version, fp, total, taille, modules, somme, suite)), signature,
                                   exigee, envoi))
         == Some(Manifeste(version, fp, total, taille, somme, signature, exigee))
  {
    hide Atoi, TrimSpace, Itoa, Split, Join;
    AtoiItoa(version);
    AtoiItoa(total);
    AtoiItoa(taille);
    AtoiItoa(modules);
    SplitJoin([Itoa(version), fp, Itoa(total), Itoa(taille), Itoa(modules), somme] + suite);
  }

  /** The content of a 05_10 as the server writes it (gpo_manager/handlers.go:234-237). */
  function TrameFragment(scope: string, user: string, fp: string, index: nat, total: nat, donnees: string): string {
    Join([scope, user, fp, Itoa(index), Itoa(total), donnees])
  }

  /** Reading the frame back gives the fragment to the byte, line breaks included. */
  lemma FragmentRelu(scope: string, user: string, fp: string, index: nat, total: nat, donnees: string)
    requires UneLigne(scope) && UneLigne(user) && UneLigne(fp) && index <= MAX_INT && total <= MAX_INT
    ensures var l := Split(TrameFragment(scope, user, fp, index, total, donnees));
            && Donnees(l) == donnees
            && LigneA(l, 0) == scope && LigneA(l, 1) == user && LigneA(l, 2) == fp
            && Atoi(TrimSpace(LigneA(l, 3))) == Lu(index)
            && Atoi(TrimSpace(LigneA(l, 4))) == Lu(total)
  {
    var t := [scope, user, fp, Itoa(index), Itoa(total), donnees];
    AtoiItoa(index);
    AtoiItoa(total);
    JoinSplit(donnees);
    EntetePuisDonnees([scope, user, fp, Itoa(index), Itoa(total)], donnees);
    assert t == [scope, user, fp, Itoa(index), Itoa(total)] + [donnees];
    var l := Split(Join(t));
    assert l == [scope, user, fp, Itoa(index), Itoa(total)] + Split(donnees);
    assert l[5..] == Split(donnees);
  }

  lemma {:induction false} EntetePuisDonnees(h: seq<string>, donnees: string)
    requires forall i | 0 <= i < |h| :: UneLigne(h[i])
    ensures Split(Join(h + [donnees])) == h + Split(donnees)
  {
    if h == [] {
      assert h + [donnees] == [donnees] && h + Split(donnees) == Split(donnees);
    } else {
      hide UneLigne, Split, Join;
      EntetePuisDonnees(h[1..], donnees);
      var t := h + [donnees];
      assert t[0] == h[0] && t[1..] == h[1..] + [donnees];
      JoinTete(t);
      SplitCoupe(h[0], Join(t[1..]));
      SplitUneLigne(h[0]);
      TeteDevant(h, Split(donnees));
    }
  }

  lemma JoinTete(t: seq<string>)
    requires |t| > 1
    ensures Join(t) == t[0] + "\n" + Join(t[1..])
  {
  }

  lemma TeteDevant(h: seq<string>, s: seq<string>)
    requires h != []
    ensures [h[0]] + (h[1..] + s) == h + s
  {
  }

  function Coller(fragments: seq<string>): string {
    if fragments == [] then "" else Coller(fragments[..|fragments| - 1]) + fragments[|fragments| - 1]
  }

  ghost function Reponse(scope: string, user: string, fp: string, fragments: seq<string>, k: nat): Evenement
    requires k < |fragments|
  {
    EFragment(Split(TrameFragment(scope, user, fp, k, |fragments|, fragments[k])), true)
  }

  /** The manifest, then the first `k` fragments, each answered once. */
  ghost function Reponses(m: Evenement, scope: string, user: string, fp: string, fragments: seq<string>,
      k: nat): seq<Evenement>
    requires k <= |fragments|
  {
    if k == 0 then [m] else Reponses(m, scope, user, fp, fragments, k - 1) + [Reponse(scope, user, fp, fragments,
        k - 1)]
  }

  /** `k` fragments held, the first `d` asked for. */
  ghost predicate Tient(v: Vue, m: Manifeste, fragments: seq<string>, k: nat, d: nat)
    requires k <= |fragments|
  {
    && v.manifeste == m && v.received == k
    && (forall i :: i in v.chunks <==> 0 <= i < k)
    && (forall i | 0 <= i < k :: v.chunks[i] == fragments[i])
    && |v.demandes| == d && forall i | 0 <= i < d :: v.demandes[i] == i
  }

  lemma {:induction false} ReunirTout(chunks: map<int, string>, fragments: seq<string>, k: nat)
    requires k <= |fragments| && forall i | 0 <= i < k :: i in chunks && chunks[i] == fragments[i]
    ensures Reunir(chunks, k) == Some(Coller(fragments[..k]))
  {
    if k > 0 {
      ReunirTout(chunks, fragments, k - 1);
      assert fragments[..k][..k - 1] == fragments[..k - 1];
    }
  }

  lemma UnFragment(v: Vue, m: Manifeste, fragments: seq<string>, k: nat, l: seq<string>, o: Outils)
    requires k < |fragments| <= MAX_INT && m.chunkCount == |fragments|
    requires v.done == [] && Tient(v, m, fragments, k, k + 1)
    requires Donnees(l) == fragments[k] && LigneA(l, 2) == m.fingerprint == TrimSpace(m.fingerprint)
    requires Atoi(TrimSpace(LigneA(l, 3))) == Lu(k) && Atoi(TrimSpace(LigneA(l, 4))) == Lu(|fragments|)
    ensures var w := Ranger(v, k, fragments[k]);
            && Tient(w, m, fragments, k + 1, k + 1) && w.done == []
            && RecevoirFragment(v, l, true, o) ==
               if k + 1 < |fragments| then w.(demandes := w.demandes + [k + 1]) else w.(done := [Issue(w, PorteeDe(l),
                   CompteDe(l), o)])
  {
    hide Atoi, AtoiBorne, TrimSpace, LigneA, Donnees, Issue;
  }

  /** A manifest and the fragments it announces, for one scope and account. */
  ghost predicate Annonce(me: Evenement, m: Manifeste, scope: string, user: string, fragments: seq<string>) {
    && UneLigne(scope) && UneLigne(user) && UneLigne(m.fingerprint)
    && TrimSpace(scope) == scope && TrimSpace(user) == user && TrimSpace(m.fingerprint) == m.fingerprint
    && 0 < |fragments| <= MAX_INT
    && ManifesteDe(me) == Some(m) && me.envoi && m.chunkCount == |fragments|
  }

  lemma DeroulerManifeste(me: Evenement, m: Manifeste, scope: string, user: string, fragments: seq<string>, o: Outils)
    requires Annonce(me, m, scope, user, fragments)
    ensures Derouler([me], o) == Vue(m, map[], 0, [], [0])
    ensures Tient(Vue(m, map[], 0, [], [0]), m, fragments, 0, 1)
  {
    assert [me][..0] == [];
    assert Derouler([me][..0], o) == NEUVE;
  }

  lemma {:induction false} AvanceEnOrdre(me: Evenement, m: Manifeste, scope: string, user: string,
      fragments: seq<string>, k: nat, o: Outils)
    requires Annonce(me, m, scope, user, fragments) && k < |fragments|
    ensures var v := Derouler(Reponses(me, scope, user, m.fingerprint, fragments, k), o);
            v.done == [] && Tient(v, m, fragments, k, k + 1)
  {
    hide Atoi, AtoiBorne, TrimSpace, LigneA, Donnees, Issue, Split, TrameFragment, RecevoirFragment, Avancer, Tient,
         Ranger, Derouler;
    if k == 0 {
      DeroulerManifeste(me, m, scope, user, fragments, o);
    } else {
      AvanceEnOrdre(me, m, scope, user, fragments, k - 1, o);
      DeroulerReponse(me, m, scope, user, fragments, k - 1, o);
      DemandeSuivante(Ranger(Derouler(Reponses(me, scope, user, m.fingerprint, fragments, k - 1), o), k - 1,
          fragments[k - 1]),
                      m, fragments, k);
    }
  }

  lemma DemandeSuivante(w: Vue, m: Manifeste, fragments: seq<string>, k: nat)
    requires k <= |fragments| && Tient(w, m, fragments, k, k)
    ensures Tient(w.(demandes := w.demandes + [k]), m, fragments, k, k + 1)
  {
  }

  lemma DeroulerReponse(me: Evenement, m: Manifeste, scope: string, user: string, fragments: seq<string>, k: nat,
      o: Outils)
    requires Annonce(me, m, scope, user, fragments) && k < |fragments|
    requires var v := Derouler(Reponses(me, scope, user, m.fingerprint, fragments, k), o);
             v.done == [] && Tient(v, m, fragments, k, k + 1)
    ensures var v := Derouler(Reponses(me, scope, user, m.fingerprint, fragments, k), o);
            var w := Ranger(v, k, fragments[k]);
            && Tient(w, m, fragments, k + 1, k + 1) && w.done == []
            && Derouler(Reponses(me, scope, user, m.fingerprint, fragments, k + 1), o) ==
               if k + 1 < |fragments| then w.(demandes := w.demandes + [k + 1]) else w.(done := [Issue(w, scope, user,
                   o)])
  {
    hide Atoi, AtoiBorne, TrimSpace, LigneA, Donnees, Issue, Split, Tient, TrameFragment, RecevoirFragment;
    var run := Reponses(me, scope, user, m.fingerprint, fragments, k + 1);
    assert run[..|run| - 1] == Reponses(me, scope, user, m.fingerprint, fragments, k);
    FragmentRelu(scope, user, m.fingerprint, k, |fragments|, fragments[k]);
    UnFragment(Derouler(run[..|run| - 1], o), m, fragments, k,
               Split(TrameFragment(scope, user, m.fingerprint, k, |fragments|, fragments[k])), o);
  }

  /** The gates of `assemble` all accept this payload. */
  ghost predicate Acceptable(m: Manifeste, scope: string, user: string, payload: string, o: Outils) {
    && (m.totalSize <= 0 || m.totalSize == |payload|)
    && (m.checksum == "" || m.checksum == o.checksum(payload))
    && o.signatureValide(m, scope, user)
    && o.decoder(payload).Some? && o.decoder(payload).value.fingerprint == m.fingerprint
  }

  lemma IssueAcceptable(v: Vue, m: Manifeste, scope: string, user: string, fragments: seq<string>, o: Outils)
    requires Tient(v, m, fragments, |fragments|, |fragments|) && m.chunkCount == |fragments|
    ensures Issue(v, scope, user, o).Livree? <==> Acceptable(m, scope, user, Coller(fragments), o)
    ensures Issue(v, scope, user, o).Livree? ==>
        Issue(v, scope, user, o).policy.document == o.decoder(Coller(fragments)).value.document
  {
    ReunirTout(v.chunks, fragments, |fragments|);
    assert fragments[..|fragments|] == fragments;
  }

  /** A run in which every 05_09 is answered once, in order, asks for each fragment once and ends on the
      original payload put back together: delivered if and only if the gates accept that payload. */
  lemma TransfertSansPerte(me: Evenement, m: Manifeste, scope: string, user: string, fragments: seq<string>, o: Outils)
    requires Annonce(me, m, scope, user, fragments)
    ensures var v := Derouler(Reponses(me, scope, user, m.fingerprint, fragments, |fragments|), o);
            && |v.demandes| == |fragments| && (forall i | 0 <= i < |fragments| :: v.demandes[i] == i)
            && |v.done| == 1
            && (v.done[0].Livree? <==> Acceptable(m, scope, user, Coller(fragments), o))
            && (v.done[0].Livree? ==> v.done[0].policy.document == o.decoder(Coller(fragments)).value.document)
  {
    hide Atoi, AtoiBorne, TrimSpace, LigneA, Donnees, Issue, Split, TrameFragment, RecevoirFragment, Acceptable, Coller,
        Derouler, Reponses, Ranger, Avancer;
    var n := |fragments|;
    AvanceEnOrdre(me, m, scope, user, fragments, n - 1, o);
    DeroulerReponse(me, m, scope, user, fragments, n - 1, o);
    var w := Ranger(Derouler(Reponses(me, scope, user, m.fingerprint, fragments, n - 1), o), n - 1, fragments[n - 1]);
    IssueAcceptable(w, m, scope, user, fragments, o);
  }
}
