/** The pending requests of the agent and the frame handlers that update them in place (fetch.go). */
module Reception {
  import opened Options
  import opened Texte
  import opened Transfert

  const SCOPE_USER := "user"

  /** fetchKey */
  function FetchKey(scope: string, username: string): string {
    if scope == SCOPE_USER then scope + "/" + username else scope
  }

  const PORTEES := {"machine", "user"}

  /** Two requests share a place exactly when they are both for the machine, or for the same account. */
  lemma MemeCle(s: string, u: string, t: string, w: string)
    requires s in PORTEES && t in PORTEES
    ensures FetchKey(s, u) == FetchKey(t, w) <==> s == t && (s == "user" ==> u == w)
  {
    assert "user" + "/" == "user/" && "machine"[0] == 'm' && "user/"[0] == 'u';
    if s == t == "user" {
      assert FetchKey(s, u)[5..] == u && FetchKey(t, w)[5..] == w;
    } else if s != t {
      assert FetchKey(s, u)[0] != FetchKey(t, w)[0];
    }
  }

  /** A request of the machine, or of an account, that is not the one of this scope and account. */
  predicate AutreDemande(f: PendingFetch, scope: string, username: string) {
    f.scope in PORTEES && scope in PORTEES && (f.scope != scope || (scope == "user" && f.username != username))
  }

  class PendingFetch {
    const scope: string
    const username: string
    var manifest: Manifeste
    var chunks: map<int, string>
    var received: int
    /** What was put on the channel; it holds one value, so a second send would block for ever. */
    var done: seq<Outcome>
    var closed: bool
    ghost var demandes: seq<int>

    ghost function EnVue(): Vue reads this { Vue(manifest, chunks, received, done, demandes) }

    ghost predicate Valid() reads this { |done| <= 1 && (closed <==> |done| == 1) }

    constructor (scope: string, username: string)
      ensures Valid() && EnVue() == NEUVE && this.scope == scope && this.username == username
    {
      this.scope, this.username := scope, username;
      manifest, chunks, received, done, closed, demandes := VIERGE, map[], 0, [], false, [];
    }

    method NouveauManifeste(m: Manifeste)
      modifies this`manifest, this`chunks, this`received
      ensures EnVue() == old(EnVue()).(manifeste := m, chunks := map[], received := 0)
    {
      manifest, chunks, received := m, map[], 0;
    }

    method Garder(index: int, data: string)
      modifies this`chunks, this`received
      ensures EnVue() == Ranger(old(EnVue()), index, data)
    {
      if index !in chunks {
        chunks := chunks[index := data];
        received := received + 1;
      }
    }
  }

  class Recepteur {
    var pendingList: map<string, PendingFetch>
    const outils: Outils

    constructor (o: Outils)
      ensures Valid() && pendingList == map[] && outils == o
    {
      pendingList, outils := map[], o;
    }

    /** Every registered request is open, under its own key. */
    ghost predicate Valid() reads this, pendingList.Values {
      forall k | k in pendingList ::
        pendingList[k].Valid() && !pendingList[k].closed && FetchKey(pendingList[k].scope, pendingList[k].username) == k
    }

    lemma AutresApart(scope: string, username: string)
      requires Valid()
      ensures forall k | k in pendingList && AutreDemande(pendingList[k], scope, username) ::
                k != FetchKey(scope, username) && pendingList[k] !in Vise(FetchKey(scope, username))
    {
      forall k | k in pendingList && AutreDemande(pendingList[k], scope, username)
        ensures k != FetchKey(scope, username) && pendingList[k] !in Vise(FetchKey(scope, username))
      {
        MemeCle(pendingList[k].scope, pendingList[k].username, scope, username);
      }
    }

    ghost function Vise(cle: string): set<PendingFetch> reads this {
      if cle in pendingList then {pendingList[cle]} else {}
    }

    method CloseFetchLocked(fetch: PendingFetch, outcome: Outcome)
      requires fetch.Valid()
      modifies this, fetch
      ensures fetch.Valid() && fetch.closed
      ensures fetch.EnVue() == Clore(old(fetch.EnVue()), outcome)
      ensures pendingList == if old(fetch.closed) then old(pendingList) else old(pendingList) - {FetchKey(fetch.scope,
          fetch.username)}
    {
      if fetch.closed { return; }
      fetch.closed := true;
      fetch.done := fetch.done + [outcome];
      pendingList := pendingList - {FetchKey(fetch.scope, fetch.username)};
    }

    /** A request already pending under the same key is superseded. */
    method StartFetch(scope: string, username: string) returns (fetch: PendingFetch)
      requires Valid()
      modifies this, Vise(FetchKey(scope, username))
      ensures Valid() && fresh(fetch) && fetch.EnVue() == NEUVE && fetch.scope == scope && fetch.username == username
      ensures pendingList == old(pendingList)[FetchKey(scope, username) := fetch]
      ensures FetchKey(scope, username) in old(pendingList) ==>
                var p := old(pendingList)[FetchKey(scope, username)];
                p.EnVue() == Clore(old(p.EnVue()), Refus("superseded"))
      ensures forall k | k in old(pendingList) && AutreDemande(old(pendingList)[k], scope, username) ::
                k in pendingList && pendingList[k] == old(pendingList)[k]
                && pendingList[k].EnVue() == old(pendingList[k].EnVue())
    {
      hide FetchKey, AutreDemande;
      AutresApart(scope, username);
      var key := FetchKey(scope, username);
      if key in pendingList {
        CloseFetchLocked(pendingList[key], Refus("superseded"));
      }
      fetch := new PendingFetch(scope, username);
      pendingList := pendingList[key := fetch];
    }

    /** Ends whichever request is registered under this key. */
    method FinishFetch(scope: string, username: string, outcome: Outcome)
      requires Valid()
      modifies this, Vise(FetchKey(scope, username))
      ensures Valid()
      ensures Suit(old(pendingList), FetchKey(scope, username))
      ensures FetchKey(scope, username) in old(pendingList) ==>
                var f := old(pendingList)[FetchKey(scope, username)];
                f.EnVue() == Clore(old(f.EnVue()), outcome)
      ensures forall k | k in old(pendingList) && AutreDemande(old(pendingList)[k], scope, username) ::
                k in pendingList && pendingList[k] == old(pendingList)[k]
                && pendingList[k].EnVue() == old(pendingList[k].EnVue())
    {
      AutresApart(scope, username);
      var key := FetchKey(scope, username);
      if key !in pendingList { return; }
      CloseFetchLocked(pendingList[key], outcome);
    }

    /** `requestPolicy` gives up its request, because the frame did not leave or because the wait expired
        (fetch.go:226-238).  A request other than its own gets the outcome exactly when another one is
        registered under its key. */
    method Abandonner(mine: PendingFetch, outcome: Outcome)
      requires Valid()
      modifies this, Vise(FetchKey(mine.scope, mine.username))
      ensures Valid()
      ensures (exists f :: f in old(pendingList.Values) && f != mine && f.done != old(f.done))
          <==> FetchKey(mine.scope, mine.username) in old(pendingList)
               && old(pendingList)[FetchKey(mine.scope, mine.username)] != mine
      ensures forall f | f in old(pendingList.Values) && f.done != old(f.done) ::
                f.done == [outcome] && f == old(pendingList)[FetchKey(mine.scope, mine.username)]
      ensures old(mine.closed) ==> mine.done == old(mine.done)
      ensures mine in old(pendingList.Values) ==> mine.done == [outcome]
      ensures forall k | k in old(pendingList) && AutreDemande(old(pendingList)[k], mine.scope, mine.username) ::
                k in pendingList && pendingList[k] == old(pendingList)[k]
                && pendingList[k].EnVue() == old(pendingList[k].EnVue())
    {
      AutresApart(mine.scope, mine.username);
      FinishFetch(mine.scope, mine.username, outcome);
    }

    /** The list after an event on one key: a request that got its outcome is no longer registered. */
    ghost predicate Suit(avant: map<string, PendingFetch>, cle: string) reads this, avant.Values {
      if cle in avant
      then avant[cle].Valid() && pendingList == if avant[cle].closed then avant - {cle} else avant
      else pendingList == avant
    }

    /** `requestChunk`: `envoi` is whether the frame could leave. */
    method RequestChunk(scope: string, username: string, index: int, envoi: bool)
      requires Valid() && FetchKey(scope, username) in pendingList
      modifies this, Vise(FetchKey(scope, username))
      ensures Valid()
      ensures Suit(old(pendingList), FetchKey(scope, username))
      ensures var f := old(pendingList)[FetchKey(scope, username)];
              f.EnVue() == Demander(old(f.EnVue()), index, envoi)
    {
      var f := pendingList[FetchKey(scope, username)];
      if envoi {
        f.demandes := f.demandes + [index];
      } else {
        FinishFetch(scope, username, Refus("transport"));
      }
    }

    method HandleManifest(scope: string, username: string, lignes: seq<string>, signature: string, exigee: bool,
        envoi: bool)
      requires Valid()
      modifies this, Vise(FetchKey(scope, username))
      ensures Valid()
      ensures Suit(old(pendingList), FetchKey(scope, username))
      ensures FetchKey(scope, username) in old(pendingList) ==>
                var f := old(pendingList)[FetchKey(scope, username)];
                f.EnVue() == Avancer(old(f.EnVue()), EManifeste(lignes, signature, exigee, envoi), outils)
      ensures forall k | k in old(pendingList) && AutreDemande(old(pendingList)[k], scope, username) ::
                k in pendingList && pendingList[k] == old(pendingList)[k]
                && pendingList[k].EnVue() == old(pendingList[k].EnVue())
    {
      hide Atoi, AtoiBorne, TrimSpace, LigneA, FetchKey, AutreDemande;
      AutresApart(scope, username);
      var key := FetchKey(scope, username);
      if key !in pendingList { return; }
      var fetch := pendingList[key];
      var chunkCount := Atoi(TrimSpace(LigneA(lignes, 2)));
      if chunkCount.Illisible? || chunkCount.n <= 0 {
        FinishFetch(scope, username, Refus("malformed_manifest"));
        return;
      }
      fetch.NouveauManifeste(Manifeste(
        AtoiBorne(TrimSpace(LigneA(lignes, 0))), TrimSpace(LigneA(lignes, 1)), chunkCount.n,
        AtoiBorne(TrimSpace(LigneA(lignes, 3))), TrimSpace(LigneA(lignes, 5)), signature, exigee));
      RequestChunk(scope, username, 0, envoi);
    }

    method HandleChunk(lignes: seq<string>, envoi: bool)
      requires Valid()
      modifies this, Vise(FetchKey(PorteeDe(lignes), CompteDe(lignes)))
      ensures Valid()
      ensures Suit(old(pendingList), FetchKey(PorteeDe(lignes), CompteDe(lignes)))
      ensures FetchKey(PorteeDe(lignes), CompteDe(lignes)) in old(pendingList) ==>
                var f := old(pendingList)[FetchKey(PorteeDe(lignes), CompteDe(lignes))];
                f.EnVue() == Avancer(old(f.EnVue()), EFragment(lignes, envoi), outils)
      ensures forall k | k in old(pendingList)
                && AutreDemande(old(pendingList)[k], PorteeDe(lignes), CompteDe(lignes)) ::
                k in pendingList && pendingList[k] == old(pendingList)[k]
                && pendingList[k].EnVue() == old(pendingList[k].EnVue())
    {
      hide Atoi, AtoiBorne, TrimSpace, LigneA, Donnees, Issue, FetchKey, AutreDemande;
      AutresApart(PorteeDe(lignes), CompteDe(lignes));
      var scope, username := PorteeDe(lignes), CompteDe(lignes);
      var index := Atoi(TrimSpace(LigneA(lignes, 3)));
      if index.Illisible? { return; }
      var chunkCount := AtoiBorne(TrimSpace(LigneA(lignes, 4)));
      var data := Donnees(lignes);
      var key := FetchKey(scope, username);
      if key !in pendingList { return; }
      var fetch := pendingList[key];
      if fetch.manifest.fingerprint != TrimSpace(LigneA(lignes, 2)) { return; }
      fetch.Garder(index.n, data);
      var total := if chunkCount > 0 then chunkCount else fetch.manifest.chunkCount;
      if fetch.received < total {
        RequestChunk(scope, username, index.n + 1, envoi);
        return;
      }
      Assemble(scope, username);
    }

    /** The fragments in index order; incomplete as soon as one is missing. */
    method Concatener(fetch: PendingFetch) returns (payload: string, complete: bool)
      ensures complete <==> Reunir(fetch.chunks, fetch.manifest.chunkCount).Some?
      ensures complete ==> Reunir(fetch.chunks, fetch.manifest.chunkCount) == Some(payload)
    {
      payload, complete := "", true;
      var i := 0;
      while i < fetch.manifest.chunkCount
        invariant complete && Reunir(fetch.chunks, i) == Some(payload)
        invariant i == 0 || i <= fetch.manifest.chunkCount
      {
        if i !in fetch.chunks {
          ManqueAussiApres(fetch.chunks, i + 1, fetch.manifest.chunkCount);
          return payload, false;
        }
        payload := payload + fetch.chunks[i];
        i := i + 1;
      }
    }

    method Assemble(scope: string, username: string)
      requires Valid() && FetchKey(scope, username) in pendingList
      modifies this, Vise(FetchKey(scope, username))
      ensures Valid()
      ensures Suit(old(pendingList), FetchKey(scope, username))
      ensures var f := old(pendingList)[FetchKey(scope, username)];
              f.EnVue() == Clore(old(f.EnVue()), Issue(old(f.EnVue()), scope, username, outils))
    {
      var fetch := pendingList[FetchKey(scope, username)];
      var payload, complete := Concatener(fetch);
      var m := fetch.manifest;
      if !complete {
        FinishFetch(scope, username, Refus("incomplete"));
        return;
      }
      if m.totalSize > 0 && |payload| != m.totalSize {
        FinishFetch(scope, username, Refus("size_mismatch"));
        return;
      }
      if m.checksum != "" && outils.checksum(payload) != m.checksum {
        FinishFetch(scope, username, Refus("checksum_mismatch"));
        return;
      }
      if !outils.signatureValide(m, scope, username) {
        FinishFetch(scope, username, Refus("signature_invalide"));
        return;
      }
      var policy := outils.decoder(payload);
      if policy.None? {
        FinishFetch(scope, username, Refus("malformed_policy"));
        return;
      }
      if policy.value.fingerprint != m.fingerprint {
        FinishFetch(scope, username, Refus("fingerprint_mismatch"));
        return;
      }
      var p := policy.value.(version := m.version);
      if p.username == "" { p := p.(username := username); }
      FinishFetch(scope, username, Livree(p));
    }
  }

  lemma {:induction false} ManqueAussiApres(chunks: map<int, string>, i: int, n: int)
    requires i <= n && Reunir(chunks, i) == None
    ensures Reunir(chunks, n) == None
  {
    if i < n { ManqueAussiApres(chunks, i, n - 1); }
  }

  /** One request superseded by another, then the wait of the first expires: the second gets an outcome without
      policy nor error code. */
  method ExpirationTardive(r: Recepteur) returns (premiere: PendingFetch, seconde: PendingFetch)
    requires r.Valid() && FetchKey("machine", "") !in r.pendingList
    modifies r, r.Vise(FetchKey("machine", ""))
    ensures premiere.done == [Refus("superseded")] && seconde.done == [Rien]
  {
    premiere := r.StartFetch("machine", "");
    seconde := r.StartFetch("machine", "");
    r.Abandonner(premiere, Rien);
  }
}
