# The Vaultaire agent's reconciliation controllers

The Linux agent of Vaultaire brings a machine to a wanted state, remembers what it did, notices that something
moved, and puts it back.  This project models the five controllers that do so and proves what they are for.

* **The policy engine** (`gpo/`): `Inventaires` (the ranked inventory of one cycle), `Proprietes` and `Fermeture`
  (files and expectations owned by several modules), `Application` and `Construction` (what runs, what is
  attributed, what is remembered), `Derive` (scan, forgetting), `Cycles`, `Tours`, `Regime` and `Reprises` (whole
  cycles and every run of them), `Convergence` (one round brings the machine back), `Tri` (the order of application).
* **The transfer of a policy** (`gpo/fetch.go`): `Transfert`, one request as a step system under duplicated, stale
  and reordered frames; `Reception`, the pending requests and their frame handlers.
* **The system configuration** (`confsys/`): `Secours`, `SecoursPAM` and `SecoursClair` (the emergency door of a PAM stack,
  as the agent checks it, as PAM runs it, and how far the one gives the other), `PileDebian`, `SSHD`, `NSS` (the text
  transformations), `Regles` (which file, which producer, which version), `ConfGroupe` (the group commit), `Passages`
  and `Reconciliation` (a whole pass).
* **The self-update** (`miseajour/bascule.go`): `Sante` (the health gate) and `Bascule` (the switch and its way back).
* **Blocks inside files of the user** (`registry.go`, `verifiers_bloc.go`, `appliers_user_extra.go`): `Blocs`,
  `BlocsExtraits`, `ConfigSSH`, `ConfigSSHCarte`.

`Cles`, `Texte`, `Disques`, `Etat` and `ConfTextes` hold what the others share: the order of Go's `sort.Strings`, the
pieces of `strings` and `strconv` the agent relies on, the disk, the recorded state, the lines of a configuration file.

Code that works step by step is a class or a method with its loops, proved equal to a function of what it started
from; the theorems are lemmas about those functions, and the functions that decide something are themselves described
in plain words.  A system call that can fail is a method whose outcome is left open; where a statement is about
failures, a ghost history of the class says which kind happened, or counts them, and where it is about what was
observed, a ghost journal holds every answer given.  Hashes are injective identifiers of the content.
`dafny verify dfyconfig.toml` checks the whole project.

## What the proofs found

Where the code and its comments disagree, the model follows the code.

* The policy fingerprint does not say that everything is in place, against the comments of `apply.go:357-360` and
  `538-539`.  A module that is skipped (unknown type, not applicable) does not count as a failure
  (`Regime.EmpreinteDePolitique`), and a cycle that does not pass for applied keeps the fingerprint of an earlier policy
  (`apply.go:540-544`): when that policy comes back, the server answers "unchanged" and the modules of the other stay.
  `Reprises.TrompeApresSsi` says exactly when a cycle leaves such a state, `Reprises.TrompeurSsi` over which runs it
  lasts: until a cycle is saved or some step clears the fingerprint, a drift correction, a catch-up with something to
  catch up, or the loss of the scope.  `Reprises.SauteExemple` and `Reprises.RevenueExemple` are one state of each kind.
* An unsaved state is not only extra work, against `cycle.go:177-182`: the record stays true exactly if every module
  executed is unrecorded, or recorded under the fingerprint it has just succeeded with (`Cycles.SauvegardeManquee`;
  `Cycles.SauvegardeManqueeExemple` is a case where it lies).
* An audit module is rewritten after all if a cycle cannot read the state file and calls its applier, or if a saved
  cycle drops its record because the home directory is not found, its markers do not expand or the state could not be
  read.  `Regime.AuditJamaisReecrit` gives the steps through which it is left alone, all of them and no other;
  `Regime.AuditReecritExemple` gives two such cycles.
* An unreadable file whose owners are all in audit stays in the report, round after round, without the mention "not
  corrected" (`Convergence.GardesSontMarques`, `Convergence.IllisibleExemple`).
* A request that gives up, because its frame did not leave or its wait expired, ends whatever is registered under its
  key: another request gets the outcome exactly when another one is registered there (`Reception.Recepteur.Abandonner`;
  `Reception.ExpirationTardive` is one such run).
* The emergency door is checked line by line, without the jumps of PAM: `auth [default=1] pam_x.so` between the module and
  the distribution passes the check, and no local account ever reaches the distribution (`SecoursPAM.SauteExemple`).
  `SecoursPAM.PorteVraieSsi` says exactly when the door is open under PAM's control flow; it is in the stacks of Rocky
  (`SecoursPAM.GabaritVrai`) and in a branched Debian stack, unless the administrator's own auth line above it loads a
  module of Vaultaire (`SecoursPAM.BrancheeVraie`).  For lines spelled as the shipped files spell them, an accepted stack
  keeps the door as soon as no line between jumps or includes (`SecoursClair.AccepteeVraie`).
* An indented or differently spelled directive, one under another name sshd knows it by, `Include` or `Match` above the
  block of `sshd_config` is read before it; `SSHDSens.SensDuBloc` says exactly when the block decides,
  `SSHDSens.IndenteeGagne` and `SSHDSens.AutreNomGagne` give one file each where it does not.  The block may even land
  inside a Match section, exactly when a line above it spells `match` in one of the ways sshd reads and the program does
  not (`SSHDSens.BlocHorsMatch`, `SSHDSens.MatchCacheExemple`).
* The name added to a database of `nsswitch.conf` goes to the end of its line, and counts as there as soon as it stands
  on the line as a word (`transformations.go:139-177`).  A comment therefore swallows it, or makes the database pass for
  branched, and so does a service called `vaultaire-2`: glibc then never asks Vaultaire.  `NSS.ServieSsi` says exactly
  when it does, `NSS.CommenteExemple` is a file where it does not.
* Replacing a managed block is idempotent exactly when its body does not hold the closing mark (`Blocs.Idempotent`,
  `Blocs.NonIdempotentExemple`).
* A copy of the unit that fails half way leaves a part of it in `precedent/`, and one that cannot be opened leaves what an
  earlier update had put there, if it could not be removed; the way back puts that in place although every write of it
  succeeds (`bascule.go:116-124`, `176-181`): `Bascule.UniteRendue` says exactly when the unit comes back,
  `Bascule.UniteTronquee` and `Bascule.UnitePerimee` are cases where it does not.
* When the switch stops half way, the reason reads "nothing has changed" even if a file could not be put back
  (`bascule.go:130-132`): it is true exactly if every such file already had the new content (`Bascule.RienNaChange`,
  `Bascule.RienNaChangeMent`).
* A group commit whose way back meets a vanished backup says that its files are put back (`reconcilier.go:263`, `286`),
  and that file keeps its new content: the words are true exactly if every such file already had it
  (`ConfGroupe.RemisVrai`), for a planned group exactly if nothing has vanished (`Reconciliation.RemisPlanifie`);
  `ConfGroupe.RemisMent` is a case where they lie.

## Model

| member | source | states |
|---|---|---|
| Inventaires.Inventaire.Marque | src/vaultaire_client/gpo/inventaire.go:104-110 | the mark is the number of events noted so far |
| Inventaires.Inventaire.NoterEcriture | src/vaultaire_client/gpo/inventaire.go:114-127 | a write is one more event of the log, an identical rewrite included |
| Inventaires.Inventaire.NoterAbsence | src/vaultaire_client/gpo/inventaire.go:129-135 | a removal is one more event of the log |
| Inventaires.Inventaire.NoterAttente | src/vaultaire_client/gpo/inventaire.go:137-144 | an expectation is one more event of the log |
| Inventaires.CheckIDDistingue | src/vaultaire_client/gpo/verify.go:82 | two expectations of kinds without a bar share an identifier if and only if they agree on kind and target |
| Inventaires.Inventaire.FichiersDepuis | src/vaultaire_client/gpo/inventaire.go:146-158 | what a module wrote is the last-write-wins fold of the events after its mark, so nothing noted before the mark is ever attributed to it |
| Inventaires.Inventaire.AttentesDepuis | src/vaultaire_client/gpo/inventaire.go:162-175 | the same for expectations |
| Inventaires.RangsApresInscription | src/vaultaire_client/gpo/inventaire.go:54-127 | noting an entry under the next rank keeps, for every earlier mark, "ranked after the mark" equal to "in the fold of what follows the mark" |
| Inventaires.RangsSansInscription | src/vaultaire_client/gpo/inventaire.go:54-144 | so does an event of the other kind |
| Proprietes.AvecProprietaires | src/vaultaire_client/gpo/inventaire.go:235-265 | keeps the owners named, without blanks nor repetition, in canonical form; refuses an empty set |
| Cles.AvantDit | src/vaultaire_client/gpo/inventaire.go:235-265 | the order of the sorted lists: at the first difference the smaller character, or else the shorter text |
| Proprietes.SansProprietaire | src/vaultaire_client/gpo/inventaire.go:219-229 | withdraws one owner, and says whether one is left |
| Proprietes.PoseCanonique | src/vaultaire_client/gpo/verify.go:234-283 | an entry so rebuilt is canonical (sorted, no repetition, no list for a single owner, the module shown is an owner) and owned by exactly the set asked for |
| Proprietes.CanoniqueEstPose | src/vaultaire_client/gpo/inventaire.go:206-265 | a canonical entry is determined by its object, the module shown and its owners |
| Fermeture.EtapeFermee | src/vaultaire_client/gpo/apply.go:419-525 | handling one more outcome (withdraw, then share) turns the closed form of the outcomes handled into the closed form of one more |
| Fermeture.EntreesCanoniques | src/vaultaire_client/gpo/apply.go:419-525 | every entry left is canonical and owned by exactly the previous owners still in the policy and not re-applied, plus the modules that brought it, all of the policy; an entry stays if and only if there is such an owner |
| Fermeture.ContenuDuDernier | src/vaultaire_client/gpo/apply.go:487-521 | it holds what the last module that brought it declared, under that module's key, and otherwise what it held |
| Fermeture.ProprietairesSansOrdre | src/vaultaire_client/gpo/apply.go:419-525 | who owns what does not depend on the order of the outcomes |
| Application.InventairePour | src/vaultaire_client/gpo/apply.go:259-265 | an empty inventory: a fresh one for an account, the machine's own, emptied, for the machine |
| Application.ApplyModule | src/vaultaire_client/gpo/apply.go:268-353 | what runs and what it is credited with: unchanged under the same fingerprint, skipped, failed with nothing attributed, or applied with the fold of its own operations |
| Application.ApplyPolicy | src/vaultaire_client/gpo/apply.go:172-247 | the whole report, and the disk after every operation of the modules that ran; nothing runs without a home directory |
| Application.GestesDeTous | src/vaultaire_client/gpo/apply.go:268-353 | every operation of every applier called reaches the disk in turn, however the applier ends, and none of the others |
| Application.RattrapageDit | src/vaultaire_client/gpo/apply.go:271-285 | a module in place is replayed in no way, and declares the expectation on sshd if and only if its type requires it, it fixes some directive and the state holds none of its own |
| Application.StatutParComptage | src/vaultaire_client/gpo/apply.go:215-247 | the two counters decide the status the outcomes have |
| Construction.PurgerMap | src/vaultaire_client/gpo/apply.go:419-448 | owners that left the policy leave their entries, an entry goes with its last owner |
| Construction.RetirerDeMap | src/vaultaire_client/gpo/apply.go:472-486 | a re-applied module leaves every entry it shared |
| Construction.AjouterAMap | src/vaultaire_client/gpo/apply.go:487-506 | an entry another module also wrote is shared, the last writer shown |
| Construction.BuildScopeState | src/vaultaire_client/gpo/apply.go:361-546 | the recorded state is the closed form, for any report of the policy |
| Construction.RetenuEn | src/vaultaire_client/gpo/apply.go:450-525 | a module is recorded if and only if it was applied or unchanged, under the fingerprint of the policy |
| Construction.EtatDit | src/vaultaire_client/gpo/apply.go:361-546 | applied if and only if no module failed, failed if and only if there are some and all did, partial otherwise; the current inventory rule; the modes of the modules in audit, and no other |
| Etat.ScopeState.ForgetModule | src/vaultaire_client/gpo/state.go:162-171 | only the fingerprint of the module goes |
| Etat.ScopeState.OublierPourLInventaire | src/vaultaire_client/gpo/state.go:181-199 | an old state loses the fingerprint of every module not in audit, and of the policy if there is one |
| Etat.RepriseDite | src/vaultaire_client/gpo/state.go:181-199 | only a state of an older rule changes: it keeps the modules in audit, and its fingerprint if all are |
| Etat.ModeDit | src/vaultaire_client/gpo/policy.go:128-137 | a word of letters, between any blanks, means audit if and only if it is that word in any case; any other means enforce |
| Etat.Depot.LoadState | src/vaultaire_client/gpo/state.go:215-250 | what was recorded, or nothing when it cannot be read |
| Etat.Depot.SaveScopeState | src/vaultaire_client/gpo/state.go:283-350 | one scope is replaced, or nothing is; every other scope stays as it was or, when the file could not be re-read, is lost |
| Derive.DriftReport.ScanFromState | src/vaultaire_client/gpo/drift.go:260-380 | the report lists, in order, what the scan of files and the scan of expectations find; Derive.ScanFichiersExact and Derive.ScanAttentesExact say what that is |
| Derive.ScanFichiersExact | src/vaultaire_client/gpo/drift.go:315-388 | a path recorded as written gives no item if and only if it is a readable file of the recorded content, and of the recorded mode if there is one; missing, unreadable, modified, permissions otherwise, in this order; a path recorded as removed gives one if and only if something is known to be there |
| Derive.ScanAttentesExact | src/vaultaire_client/gpo/verify.go:159-201 | an item for each expectation whose checker reports a gap, an uncertain one for each it cannot tell, and no other |
| Derive.DriftReport.MarquerLesNonCorriges | src/vaultaire_client/gpo/drift.go:231-253 | flags in place exactly the findings whose owners, at least one, are all in audit |
| Derive.MarqueDite | src/vaultaire_client/gpo/drift.go:231-253 | a finding is flagged if and only if it has an owner and all are recorded in audit; an uncertainty or an unreadable file never is |
| Derive.DriftReport.ModulesConcerned | src/vaultaire_client/gpo/drift.go:169-193 | sorted, without repetition: exactly the owners of some finding that is not an uncertainty |
| Derive.PartitionByMode | src/vaultaire_client/gpo/drift.go:395-405 | each module on its side, none lost |
| Derive.EnforceDrift | src/vaultaire_client/gpo/drift.go:420-492 | the enforce owners of the findings lose their fingerprint and so does the policy; nothing is written otherwise |
| Derive.EcartsOublies | src/vaultaire_client/gpo/drift.go:420-492 | exactly the owners, not in audit, of a finding that is no uncertainty lose their fingerprint, and the policy loses its own if and only if there is one |
| Derive.CorrigesSontConcernes | src/vaultaire_client/gpo/drift.go:420-492 | what is forgotten is exactly the owners concerned that are not in audit |
| Convergence.DernierEcrivain | src/vaultaire_client/gpo/apply.go:305-351 | on the disk after a cycle, a path holds what the last module that brought it declared |
| Convergence.DisqueSuitLeJournal | src/vaultaire_client/gpo/appliers_machine.go:549-595 | after any operations, a path holds what the fold of the log says, and an untouched path what it held |
| Convergence.ProprietairesStables | src/vaultaire_client/gpo/apply.go:419-525 | replaying any set of modules moves no ownership |
| Convergence.ResteEtabli | src/vaultaire_client/gpo/apply.go:361-546 | whatever was replayed, the state is established for the policy again |
| Convergence.RejoueRemet | src/vaultaire_client/gpo/drift.go:260-380 | a path that a replayed module writes is left without gap |
| Convergence.NonRejoueIntact | src/vaultaire_client/gpo/apply.go:450-525 | a path that no replayed module writes keeps its record and its content |
| Convergence.EcartCorrige | src/vaultaire_client/gpo/drift.go:395-492 | a finding is left alone if and only if all its owners are in audit |
| Convergence.ConvergenceEnUnTour | src/vaultaire_client/gpo/drift.go:169-492 | after scan, forgetting, application and recording, whatever had been done to the disk, the file items left are exactly those whose owners are all in audit, shared files included |
| Convergence.GardesSontMarques | src/vaultaire_client/gpo/drift.go:231-253 | the report of the files one round later is, in order, what the report of this round says nobody corrects and the unreadable files whose owners are all in audit, which it does not flag |
| Convergence.IllisibleReste | src/vaultaire_client/gpo/drift.go:231-262 | an unreadable file whose owners are all in audit is reported without the mention, and still is a round later |
| Convergence.IllisibleExemple | src/vaultaire_client/gpo/drift.go:231-262 | one state and one disk with such a file |
| Convergence.ApplicationComplete | src/vaultaire_client/gpo/apply.go:361-546 | a full application, from whatever was recorded, establishes the state and leaves no gap |
| Cycles.RunCycle | src/vaultaire_client/gpo/cycle.go:132-200 | nothing moves without a policy received; otherwise the report, the disk and the record are those of one cycle step, whatever read or write of the state fails, and every other scope stays or is lost |
| Cycles.ScanMachineDrift | src/vaultaire_client/gpo/cycle.go:407-426 | the scan of the recorded state, then the forgetting of what it found: one drift step of the run, whatever fails |
| Cycles.EnregistreEn | src/vaultaire_client/gpo/apply.go:361-525 | what a cycle records for a module: its fingerprint, if and only if it was already in place or its applier succeeded |
| Cycles.CycleFidele | src/vaultaire_client/gpo/apply.go:268-525 | a saved cycle keeps every recorded fingerprint that of the last execution, a successful one |
| Cycles.HistoireFidele | src/vaultaire_client/gpo/cycle.go:132-374 | so does every run of cycles, drift scans, catch-ups and losses of the scope, with changing policies, failures, skips and unreadable states, when the states of the cycles are saved |
| Cycles.InchangeEstVrai | src/vaultaire_client/gpo/apply.go:271-285 | "unchanged" is only reported for a module whose last execution succeeded under that very fingerprint |
| Cycles.SauvegardeManquee | src/vaultaire_client/gpo/cycle.go:173-182 | when the state is not saved, read or not, the record stays true if and only if every module executed is unrecorded, or recorded under the fingerprint it has just succeeded with |
| Cycles.SauvegardeManqueeExemple | src/vaultaire_client/gpo/cycle.go:173-182 | one policy and one recorded state for which an unsaved cycle leaves a record that lies |
| Regime.AuditUnPas | src/vaultaire_client/gpo/drift.go:395-481 | a step of the policy leaves an audit module recorded and does not call its applier if and only if it is a safe one: not a loss, and if a cycle, one that is unsaved or could start the module on a state that was read, or one that neither saved nor called the applier on a state that was not |
| Regime.AuditJamaisReecrit | src/vaultaire_client/gpo/drift.go:395-481 | over any run of the policy, whatever drifts, with both catch-ups and states lost, unread or unsaved, an audit module in place stays recorded and its applier is never called if and only if every step is a safe one |
| Regime.AuditPerduSiEchec | src/vaultaire_client/gpo/apply.go:450-525 | the applier of an audit module in place is called in a cycle or in the next safe one if and only if that cycle is not safe |
| Regime.AuditReecritExemple | src/vaultaire_client/gpo/state.go:215-250 | one audit module, one cycle that rewrites it because the state cannot be read, one that forgets it because the home is not found, so that the next rewrites it |
| Regime.RegimeStable | src/vaultaire_client/gpo/apply.go:268-546 | a cycle of any scope on a policy recorded in full executes nothing and records the same state, as one that was applied |
| Regime.EtablitRegime | src/vaultaire_client/gpo/apply.go:361-546 | a saved cycle that leaves every module in place, and on the machine with the expectations its types require, leaves the steady state of Regime.RegimeStable, whatever was recorded before |
| Regime.EmpreinteDePolitique | src/vaultaire_client/gpo/apply.go:538-546 | a saved cycle leaves the fingerprint of its policy recorded with some module unrecorded if and only if the policy passes for applied, or its fingerprint was there already, and some module could not start, fails or is skipped |
| Regime.EmpreinteApres | src/vaultaire_client/gpo/apply.go:538-546 | the fingerprint recorded by a cycle: that of its policy if it could start and no module failed, and otherwise the one recorded before |
| Regime.AttenteEnregistree | src/vaultaire_client/gpo/verifiers_sshd.go:180-241 | the catch-up of expectations ends: a module in place with the expectation its type requires held, brought or declared owns it in the state recorded |
| Reprises.TrompeApresSsi | src/vaultaire_client/gpo/apply.go:538-546 | for any policy and any saved cycle, the server asked for the policy answers "unchanged" with a module of it missing if and only if the fingerprint kept or recorded is that of the policy and some module of it is not in the cycle's own under the same key and fingerprint, could not start, or was neither in place nor successful |
| Reprises.TrompeurSsi | src/vaultaire_client/gpo/apply.go:538-546 | over any run of cycles of whatever policies, drift scans, catch-ups and losses, that is so at the end if and only if the last saved cycle left it so, or it was so at the start, and nothing since has cleared the fingerprint |
| Reprises.PolitiqueRevenue | src/vaultaire_client/gpo/apply.go:538-546 | a policy in place, a cycle of another, and back: "unchanged" with a module missing if and only if the state was read and saved, the cycle does not pass for applied, and some module of the first is not in the second under the same key and fingerprint or could not start |
| Reprises.RevenueExemple | src/vaultaire_client/gpo/apply.go:538-546 | one such policy, state and cycle |
| Reprises.EffaceSsi | src/vaultaire_client/gpo/drift.go:470-481 | between two cycles the recorded fingerprint is cleared if and only if some step clears it: a saved drift correction, a saved catch-up with something to catch up, a loss |
| Reprises.ModuleSaute | src/vaultaire_client/gpo/apply.go:357-360 | a module left out of a recorded policy is tried again at the next request of that policy if and only if some step since has cleared the fingerprint; its applier is then called if and only if it can start and has one |
| Reprises.EcartRejoue | src/vaultaire_client/gpo/drift.go:420-481 | every enforce owner of a finding whose forgetting was saved is executed by the next received cycle that can start it and has its applier, whatever steps stand between, and the server sends the policy |
| Reprises.SauteExemple | src/vaultaire_client/gpo/apply.go:538-546 | one policy recorded as applied with its only module skipped, that the server then answers "unchanged" |
| Tours.AppliedFingerprint | src/vaultaire_client/gpo/state.go:255-262 | the fingerprint the server is told, "none" without one or when the state cannot be read |
| Tours.RattraperAttentesMachine | src/vaultaire_client/gpo/verifiers_sshd.go:217-241 | the policy fingerprint goes if and only if a recorded module lacks the expectation its type requires; one step of the run, whatever fails |
| Etat.RattrapageSsi | src/vaultaire_client/gpo/verifiers_sshd.go:180-241 | a state is to be caught up if and only if a recorded module of type ssh_server_config owns no expectation on the effective configuration of sshd |
| Tours.RattraperInventaireUtilisateur | src/vaultaire_client/gpo/drift_user.go:269-289 | a state of an account written under an older inventory rule loses its enforce modules and its policy; one step of the run, whatever fails |
| Tours.RunMachineCycleWith | src/vaultaire_client/gpo/cycle.go:330-374 | one machine round, whatever the appliers do, leaves the recorded state and the disk that scan, forgetting, catch-up, request and application come to; with failing reads and writes, the state left is that after the two or three steps of a round |
| Tours.TourConverge | src/vaultaire_client/gpo/cycle.go:330-374 | from a state built by a full application, that round converges: the file items left are exactly those whose owners are all in audit, and the next round starts from the same hypothesis |
| Tri.SortModules | src/vaultaire_client/gpo/policy.go:211-221 | sorts the slice in place: the same modules, by order, then type, then state key, and those that agree on all three in the order they came |
| Tri.TriFidele | src/vaultaire_client/gpo/policy.go:211-221 | the order sorted to, on the three fields of a module, and its stability |
| Tri.OrdreSansReception | src/vaultaire_client/gpo/policy.go:206-221 | the order of execution is that of the comparison, and depends only on the set of modules received |
| Transfert.UneSeuleIssue | src/vaultaire_client/gpo/fetch.go:145-189 | each request receives at most one outcome and keeps it whatever arrives afterwards |
| Transfert.HistoireRetracee | src/vaultaire_client/gpo/fetch.go:311-400 | while a request is pending, its fragments are the first copies received since the latest manifest and carrying its fingerprint |
| Transfert.LivraisonSure | src/vaultaire_client/gpo/fetch.go:413-493 | a delivered policy is the decoding of the fragments 0..n-1 joined in order under a manifest received before, of the announced size and checksum, signature accepted, under the announced fingerprint |
| Transfert.FragmentRelu | src/vaultaire_client/gpo/fetch.go:361-400 | reading the frame of a fragment gives it back to the byte, line breaks included |
| Transfert.FragmentDouble | src/vaultaire_client/gpo/fetch.go:361-400 | a fragment received again changes nothing of what is held |
| Transfert.ManifesteRelu | src/vaultaire_serveur/ducky-network/gpo_manager/gpoTrameManager.go:187-202 | reading the frame of a manifest gives every field the server wrote |
| Transfert.IssueDite | src/vaultaire_client/gpo/fetch.go:413-493 | each refusal if and only if its gate is the first to fail, a delivery if and only if none does |
| Transfert.TransfertSansPerte | src/vaultaire_client/gpo/fetch.go:311-493 | when every request is answered once, in order, n requests reassemble the original payload, delivered if and only if the gates accept it |
| Reception.MemeCle | src/vaultaire_client/gpo/fetch.go:91-97 | two requests share a place if and only if both are for the machine, or for the same account |
| Reception.Recepteur.StartFetch | src/vaultaire_client/gpo/fetch.go:145-163 | a request already pending for the same scope and account is closed as superseded, and the new one takes its place; every other request stays as it was |
| Reception.Recepteur.CloseFetchLocked | src/vaultaire_client/gpo/fetch.go:167-174 | one outcome at most is put on the channel |
| Reception.Recepteur.FinishFetch | src/vaultaire_client/gpo/fetch.go:178-189 | ends whichever request is registered for the scope and account, and no other |
| Reception.Recepteur.Abandonner | src/vaultaire_client/gpo/fetch.go:226-238 | giving up a request gives its outcome to another request if and only if another one is registered under its key, and then to that one only |
| Reception.Recepteur.HandleManifest | src/vaultaire_client/gpo/fetch.go:311-349 | a manifest frame is the step of the same name of the step system, for the request of its scope and account; every other request stays as it was |
| Reception.Recepteur.HandleChunk | src/vaultaire_client/gpo/fetch.go:361-400 | so is a fragment frame |
| Reception.Recepteur.Assemble | src/vaultaire_client/gpo/fetch.go:413-493 | the gates, in the order of the code |
| Reception.ExpirationTardive | src/vaultaire_client/gpo/fetch.go:210-239 | one run: a request is superseded, its wait expires, and the newer one is ended without policy nor error code |
| Sante.UnTour | src/vaultaire_client/miseajour/bascule.go:215-244 | one turn reads the service, then the clock and the probe as the journal says, and accepts exactly if, at this poll, the service has held one PID for the whole window and the probe, when asked for, got its answer |
| Sante.PorteDeSante | src/vaultaire_client/miseajour/bascule.go:210-246 | the journal of the machine grew by exactly the polls of the trace, under a deadline set by the first clock read: the gate accepts at the first acceptable poll, and refuses only on a clock past that deadline without one; it terminates |
| Sante.FranchieDit | src/vaultaire_client/miseajour/bascule.go:210-246 | a crossed gate, read in the journal alone: the service active under one PID from an answer to the end, clocks thirty seconds apart around it, and the answer of the tunnel last when the probe is asked for |
| Sante.RefuseeDite | src/vaultaire_client/miseajour/bascule.go:210-246 | a refusal takes three minutes at least between the first clock and the last, by turns of two seconds |
| Sante.ServiceStableAccepte | src/vaultaire_client/miseajour/bascule.go:210-246 | a gate during which the service shows one PID and answers every probe, from a poll that comes one window and one turn before the deadline, is crossed |
| Bascule.Machine.VerifierSources | src/vaultaire_client/miseajour/bascule.go:104-109 | every source has the content of the plan |
| Bascule.Machine.GarderTout | src/vaultaire_client/miseajour/bascule.go:113-125 | every destination has a complete copy, or nothing outside `precedent` has moved |
| Bascule.Machine.BasculerTout | src/vaultaire_client/miseajour/bascule.go:128-135 | the destinations posed hold their sources, the others are untouched |
| Bascule.Machine.Remettre | src/vaultaire_client/miseajour/bascule.go:160-168 | the first files have their kept version, except exactly those whose write failed; the others are untouched |
| Bascule.Machine.RetourArriere | src/vaultaire_client/miseajour/bascule.go:173-198 | every file has its kept version except exactly those whose write failed, the unit is the copy that lies there, if one does and could be put back, and the reason says whether it is incomplete or holds |
| Bascule.Machine.Redemarrer | src/vaultaire_client/miseajour/bascule.go:137-151 | the new version is kept only if the gate, over what was really read, saw it healthy; otherwise the way back |
| Bascule.Machine.Executer | src/vaultaire_client/miseajour/bascule.go:91-198 | installed if and only if the gate with its probe was crossed over what was really read, and every destination then holds the planned content; otherwise every destination is as it was, except exactly those whose restoring write failed, which hold the new content; refused if and only if a source was modified or the kept version is incomplete, and then nothing of the system moved; with no failed operation, the exact reason; the commands called, the unit and the gate of the way back; the lock is released |
| Bascule.AllerRetour | src/vaultaire_client/miseajour/bascule.go:113-168 | keeping, switching any number of files and putting them back leaves every file as it was, except those whose restoring write failed |
| Bascule.RienNaChange | src/vaultaire_client/miseajour/bascule.go:129-133 | "nothing has changed" is true if and only if every file that could not be put back already had the content of the update |
| Bascule.RienNaChangeMent | src/vaultaire_client/miseajour/bascule.go:129-133 | one plan and one machine for which that reason is false |
| Bascule.UniteRendue | src/vaultaire_client/miseajour/bascule.go:116-181 | whatever lay in `precedent`, the way back gives the unit back, or its absence, if and only if the copy succeeded, or what lies there has its content, or nothing lies there and the new binary wrote the same unit |
| Bascule.UniteTronquee | src/vaultaire_client/miseajour/bascule.go:123-181 | one copy cut short that becomes the unit |
| Bascule.UnitePerimee | src/vaultaire_client/miseajour/bascule.go:116-181 | one unit of an earlier update that could not be removed and comes back |
| ConfTextes.LignesJoindre | src/vaultaire_client/confsys/transformations.go:34-46 | lines written and read back are the same lines |
| ConfTextes.JoindreLignes | src/vaultaire_client/confsys/transformations.go:34-46 | a file read and written back changes at most by its last line break |
| ConfTextes.VersionSansMarqueur | src/vaultaire_client/confsys/transformations.go:19-30 | the version of a file is that of its first versioned marker |
| ConfTextes.VersionDite | src/vaultaire_client/confsys/transformations.go:19-30 | a version is one to six digits followed by the end of a word, and gives their value |
| Secours.VerifierPorteDeSecours | src/vaultaire_client/confsys/secours.go:35-82 | accepts exactly the stacks whose first auth line of Vaultaire says ignore=ignore and is followed by an authentication of the distribution with no cutting line between; each refusal is given exactly when its condition is the first to fail, the cutting line being the first deciding line after the module |
| Secours.TrouverModule | src/vaultaire_client/confsys/secours.go:36-54 | the first auth line that loads a module of Vaultaire, if any |
| Secours.LireLigne | src/vaultaire_client/confsys/secours.go:59-80 | one line is the authentication of the distribution, cuts the way of a local account, or neither |
| Secours.DistributionDite | src/vaultaire_client/confsys/secours.go:59-73 | what counts as the authentication of the distribution, in the words of the line |
| Secours.ControleEntreCrochets | src/vaultaire_client/confsys/secours.go:87-101 | the control of a line in brackets is the whole bracket |
| SecoursPAM.PorteVraieSsi | src/vaultaire_client/confsys/secours.go:9-27 | under the control flow of PAM, a local account the module ignores reaches the distribution or is let in before, whatever the other modules answer and the other files hold, if and only if no line the walk can come to before the distribution is the end of the stack, includes another file or has a result that ends everything |
| SecoursPAM.QuatreMots | src/vaultaire_client/confsys/secours.go:87-101 | what each of the four words of a control does with each result, as PAM defines them |
| SecoursPAM.AccepteeDouce | src/vaultaire_client/confsys/secours.go:35-82 | an accepted stack keeps that door when the line of the module lets an ignored account go on and every line between it and the distribution neither ends the way, nor jumps, nor includes |
| SecoursPAM.GabaritVrai | src/vaultaire_client/confsys/gabarits.go:17-83 | the three whole stacks of Rocky keep that door |
| SecoursPAM.BrancheeVraie | src/vaultaire_client/confsys/transformations.go:66-99 | so does every Debian stack branched, save the one exception of the administrator's own auth line |
| SecoursPAM.SauteExemple | src/vaultaire_client/confsys/secours.go:35-82 | one stack that is accepted and that no local account gets through |
| SecoursClair.PasDeMort | src/vaultaire_client/confsys/secours.go:74-80 | a line the check passes over, spelled as the shipped files spell theirs, has no result that ends everything under PAM |
| SecoursClair.AccepteeVraie | src/vaultaire_client/confsys/secours.go:35-82 | so an accepted stack keeps the door under the control flow of PAM, when its lines are so spelled, the control of the module gives `ignore` once, and no line between it and the distribution jumps or includes |
| SecoursClair.RefuseeFermee | src/vaultaire_client/confsys/secours.go:74-82 | conversely a `requisite` line after gentle ones, or the end of the stack, does close the door |
| PileDebian.BrancherPileDebian | src/vaultaire_client/confsys/transformations.go:66-99 | the new stack, or the refusal of one without common-auth: marker at the head, auth line just before the first common-auth, session line just after the first common-session or at the end |
| PileDebianProprietes.PileDecrite | src/vaultaire_client/confsys/transformations.go:66-99 | the whole stack, line by line: opening line and marker, then what is left, the auth line just before the first line that includes common-auth, the session line just after the first that includes common-session, or at the end |
| PileDebianProprietes.Conserve | src/vaultaire_client/confsys/transformations.go:66-99 | the lines of the administrator come out unchanged and in order |
| PileDebianProprietes.ConserveSansMention | src/vaultaire_client/confsys/transformations.go:59-99 | the lines without `# vaultaire` are the same before and after, in order |
| PileDebianProprietes.PileIdempotente | src/vaultaire_client/confsys/transformations.go:66-99 | branching a branched stack changes nothing, and its version is 1 |
| PileDebianProprietes.UnSeulMarqueur | src/vaultaire_client/confsys/transformations.go:69-81 | exactly one marker, at the head |
| PileDebianProprietes.PileGardeLaPorte | src/vaultaire_client/confsys/secours.go:35-82 | with each shipped auth line the new stack keeps the emergency door open, unless an unmarked auth line above common-auth already loads a module of Vaultaire |
| SSHD.ReecrireSSHD | src/vaultaire_client/confsys/transformations.go:111-134 | the block stands before the first Match of the lines left, or at the end |
| SSHDSens.LignesConservees | src/vaultaire_client/confsys/transformations.go:111-134 | every line that holds nothing of the block comes out unchanged and in order |
| SSHDSens.RienDePlus | src/vaultaire_client/confsys/transformations.go:101-127 | nothing is taken away but markers, the inclusion and what the block sets again |
| SSHDSens.ReecrireIdempotente | src/vaultaire_client/confsys/transformations.go:111-134 | rewriting a rewritten file changes nothing, and its version is 1 |
| SSHDSens.BlocHorsMatch | src/vaultaire_client/confsys/transformations.go:128-137 | as sshd reads keywords, quotation marks included, no line of the block nor above it opens a Match section if and only if no line left above it spells `match` in a way the program does not see |
| SSHDSens.MatchLu | src/vaultaire_client/confsys/transformations.go:135-137 | what sshd reads as Match is what the expression of the program matches, and exactly the spellings it misses: `match` before `=` or the end of the line, partly between quotation marks, or after an empty first word |
| SSHDSens.MatchCacheExemple | src/vaultaire_client/confsys/transformations.go:128-137 | one file whose block lands inside a Match section |
| SSHDSens.SensDuBloc | src/vaultaire_client/confsys/gabarits.go:94-111 | read first value wins, under the other names sshd has for a keyword before and since version 8.7, a held keyword has the value of the block whatever the included files say if and only if the first surviving line above the block that can decide it, if any, already gives that value |
| SSHDSens.BlocImpose | src/vaultaire_client/confsys/gabarits.go:94-111 | with nothing above the block that can decide them, the value sshd gives each held keyword |
| SSHDSens.IndenteeGagne | src/vaultaire_client/confsys/transformations.go:111-127 | an indented directive is not taken away and wins: one file where the block does not decide |
| SSHDSens.AutreNomGagne | src/vaultaire_client/confsys/transformations.go:111-127 | a directive under another name of a held keyword is not taken away and wins: one file |
| NSS.BrancherBase | src/vaultaire_client/confsys/transformations.go:147-168 | one database: found or not, and the name added to each of its lines if none had it |
| NSS.BrancherNSS | src/vaultaire_client/confsys/transformations.go:145-177 | the new file, or the refusal of one that lacks a database |
| NSS.SeulsAjouts | src/vaultaire_client/confsys/transformations.go:161-168 | a line changes if and only if its database named Vaultaire nowhere, and then only by the name added |
| NSS.NSSIdempotent | src/vaultaire_client/confsys/transformations.go:145-177 | branching a branched file changes nothing; both databases name Vaultaire; one marker, of version 1 |
| NSS.ServieSsi | src/vaultaire_client/confsys/transformations.go:139-177 | glibc asks Vaultaire for a database after the branching if and only if a line of it already listed the service, or none held its name as a word and some line has no comment |
| NSS.DejaSsi | src/vaultaire_client/confsys/transformations.go:161-168 | on a line of plain words without comment, the name is found if and only if the service is listed |
| NSS.CommenteExemple | src/vaultaire_client/confsys/transformations.go:139-177 | one file that passes for branched and where glibc never asks |
| Regles.ProducteurVersion | src/vaultaire_client/confsys/regles.go:75-108 | what a rule produces carries the version of the rule, whatever was in place |
| Regles.ReglesTenues | src/vaultaire_client/confsys/regles.go:75-108 | which files go through the emergency door, through the check of sshd, through a reload, may be created or must be there, and which lines or template each stack gets |
| Regles.GabaritGardeLaPorte | src/vaultaire_client/confsys/gabarits.go:17-83 | the three whole stacks of Rocky keep the emergency door open |
| Regles.CandidatPasse | src/vaultaire_client/confsys/regles.go:76-92 | every stack proposed passes its own check, save the one exception of the administrator's own auth line |
| ConfGroupe.Racine.Restaurer | src/vaultaire_client/confsys/reconcilier.go:368-379 | the file is the backup, or what it was when the step fails or meets something gone; the temporary goes if it can be removed |
| ConfGroupe.Racine.Preparer | src/vaultaire_client/confsys/reconcilier.go:212-239 | every candidate lies complete next to its file and sshd -t has accepted those it has to, or nothing but temporaries has appeared |
| ConfGroupe.Racine.Sauver | src/vaultaire_client/confsys/reconcilier.go:240-256 | every file that was there has a complete backup under the name of this pass |
| ConfGroupe.Racine.Renommages | src/vaultaire_client/confsys/reconcilier.go:257-266 | the first files hold their candidates, the others are untouched |
| ConfGroupe.Racine.Remettre | src/vaultaire_client/confsys/reconcilier.go:277-291 | the files posed are as before, created ones removed, except exactly those whose step failed, or met something gone, which alone is not reported; those keep what they held |
| ConfGroupe.Racine.EcrireGroupe | src/vaultaire_client/confsys/reconcilier.go:203-273 | all written, or all as they were, except exactly the files whose restoring step failed, which is reported, or met something gone, which is not, and which hold their candidates; any other answer than written takes a failed operation or a refused validation, and a file left with its candidate takes two; nothing outside the group's files, temporaries and backups of this pass changes; no temporary is left when removals succeed |
| ConfGroupe.RemisVrai | src/vaultaire_client/confsys/reconcilier.go:257-291 | "the files already written are put back" is true if and only if every file whose restoring step met something gone already had the content of its candidate |
| ConfGroupe.RemisMent | src/vaultaire_client/confsys/reconcilier.go:257-291 | one group for which it is false |
| Passages.Resumer | src/vaultaire_client/confsys/reconcilier.go:294-329 | the state reported follows from the findings |
| Passages.PrevueDite | src/vaultaire_client/confsys/reconcilier.go:105-141 | each finding if and only if its condition holds: up to date, ahead, absent, to write, and refused otherwise |
| Passages.JamaisPlusBas | src/vaultaire_client/confsys/reconcilier.go:116-143 | no pass, whatever fails, lowers the version of a held file or makes one disappear |
| Passages.PorteJamaisFermee | src/vaultaire_client/confsys/reconcilier.go:123-131 | a file of `etc/pam.d` a pass has changed keeps the emergency door open |
| Passages.PointFixe | src/vaultaire_client/confsys/reconcilier.go:93-188 | after a pass reported without gap, a second plan writes nothing |
| Passages.ConformeVeutDire | src/vaultaire_client/confsys/reconcilier.go:318-328 | "conforme" means nothing was written and every file is at its version, ahead of it, or absent where not required |
| Reconciliation.Examiner | src/vaultaire_client/confsys/reconcilier.go:105-141 | the finding on one rule, and the content to write |
| Reconciliation.Planifier | src/vaultaire_client/confsys/reconcilier.go:93-148 | the findings, and for each group without refusal exactly the candidates to write |
| Reconciliation.RemisPlanifie | src/vaultaire_client/confsys/reconcilier.go:105-148 | for a group as planned, every file is back if and only if no restoring step failed or met something gone: a candidate always brings a new content |
| Reconciliation.Marquer | src/vaultaire_client/confsys/reconcilier.go:190-199 | the findings to write of one group change, and no other |
| Reconciliation.ToutEcrit | src/vaultaire_client/confsys/reconcilier.go:151-188 | when every group is written, every rule to write in a group without refusal is |
| Reconciliation.Reconcilier | src/vaultaire_client/confsys/reconcilier.go:151-188 | every run is a pass: each rule is written, refused or left as planned, no group is half written with a refusal, no other file moves, and the state is that of the findings; with no failure, every rule to write in a group without refusal is written; sshd is reloaded, and dconf updated, once if and only if a file of theirs was written |
| Blocs.Place | src/vaultaire_client/gpo/registry.go:109-134 | with an opening mark, the text before it is kept to the byte, the block follows, then an empty line and the text after the closing mark less its leading line breaks, if any is left, and nothing if the mark is never closed; without one, the whole text less its last line breaks, unless blank |
| Blocs.Idempotent | src/vaultaire_client/gpo/registry.go:101-134 | replacing the block twice is replacing it once, if and only if its body does not hold the closing mark |
| Blocs.NonIdempotentExemple | src/vaultaire_client/gpo/registry.go:101-134 | one body that holds the closing mark, for which a second pass changes the file |
| BlocsExtraits.ExtraireBloc | src/vaultaire_client/gpo/verifiers_bloc.go:92-108 | the body between the first opening line and the next closing line; a block never closed is absent |
| BlocsExtraits.ExtraitExact | src/vaultaire_client/gpo/verifiers_bloc.go:92-108 | exactly the lines between the first opening line and the closing line that follows it, and nothing if and only if there is none |
| BlocsExtraits.VerifierAccepte | src/vaultaire_client/gpo/verifiers_bloc.go:92-108 | reading back what the applier has just written gives the whole managed body, when the mark opens its line and no line of the body is the closing mark |
| ConfigSSH.RemoveMarkedBlock | src/vaultaire_client/gpo/appliers_user_extra.go:391-409 | the lines outside the block, less the empty lines at the end |
| ConfigSSH.Fichier.ApplyUserSSHClientConfig | src/vaultaire_client/gpo/appliers_user_extra.go:314-388 | the whole file after setting or removing an alias; refused, and untouched, if and only if the alias is missing, or the hostname of an alias to set |
| ConfigSSH.EntreeLue | src/vaultaire_client/gpo/appliers_user_extra.go:354-375 | the entry opens on its host and says the hostname, and each other parameter given, under its keyword, and nothing else; the key lies under the home directory |
| ConfigSSHCarte.HorsBlocRendu | src/vaultaire_client/gpo/appliers_user_extra.go:391-409 | taking an alias out takes its entry out and nothing else |
| ConfigSSHCarte.Etape | src/vaultaire_client/gpo/appliers_user_extra.go:334-388 | an operation keeps the file made of lines of the user and entries of aliases |
| ConfigSSHCarte.EtapeCarte | src/vaultaire_client/gpo/appliers_user_extra.go:314-388 | it changes the entry of its alias and no other, and keeps the non-blank lines of the user in order |
| ConfigSSHCarte.Histoire | src/vaultaire_client/gpo/appliers_user_extra.go:314-388 | after any sequence of operations from a file without markers, the file is the non-blank lines of the user, in order, beside the entries of the map |
| ConfigSSHCarte.CarteRaffinee | src/vaultaire_client/gpo/verifiers_bloc.go:76-108 | what is read back for any alias is the last entry set, or its absence |
| ConfigSSHCarte.PoserDeuxFois | src/vaultaire_client/gpo/appliers_user_extra.go:334-388 | in any file, even with unmatched markers, setting the same entry twice in a row is setting it once |

## Left out

- Inventaires.Inventaire.NoterEcriture: the lock of the inventory, one cycle per scope runs at a time.
- Proprietes.AvecProprietaires: written once over the tracked object, where the code has one copy for files and one for system checks.
- Application.ApplyModule: the bodies of the appliers; an applier is the list of funnel operations it carries out and the way it ends, and a bare `os.Remove` outside the funnel is not part of it.  The parent directories and temporary files of the funnel, and the details of a refusal, are left out too.
- Application.ApplyPolicy: the expansion of markers in parameters; the modules whose markers cannot be expanded are given as a set.
- Construction.BuildScopeState: a policy with two modules under one state key, or an empty one; the keys of a policy are distinct, as the server makes them.
- Etat.Depot.SaveScopeState: the encoding of the state file and its date.
- Derive.DriftReport.ScanFromState: machine scope only; under a home directory the code goes through open descriptors (`drift.go:497-560`), whose guarantees rest on the kernel.
- Derive.DriftReport.ScanFromState: what a checker of system state looks at; it is a function of the expectation.
- Convergence.ConvergenceEnUnTour: items of system state and expectations, which foreign commands decide.
- Cycles.RunCycle: the reports sent to the server and the log.
- Tours.RunMachineCycleWith: the wait for a session, the periodic refresh, the reports; a server that refuses or does not answer is in Cycles.RunCycle, where nothing then moves.
- Transfert.LivraisonSure: RSA signatures, SHA-256 and JSON decoding are opaque functions; the signature lines of a manifest come already read.
- Transfert.TransfertSansPerte: sizes are counted in characters, not in bytes.
- Reception.Recepteur.Abandonner: real clocks and goroutines; each handler is taken as one step, where `handleChunk` releases the lock before it asks for the next fragment or assembles (`fetch.go:361-400`).
- Bascule.Machine.Executer: modes and owners of the files, what the commands (folders, SELinux labels, units) do, beyond that they are called, the temporary files of a write; the five names of a plan are distinct and none is that of the kept unit, as the preparation makes them.
- Bascule.Machine.Redemarrer: the duration in the reason, the texts of the errors in it.
- Sante.PorteDeSante: reading the unit through systemctl and the probe through the PAM socket; both answer what they like.
- Secours.Controle: the quoting rules of PAM beyond what the code looks at.
- SecoursPAM.PorteVraieSsi: lines continued by a backslash, comments after a rule, escaped brackets; a file that is included counts as one that may end the way.
- SSHDSens.SensDuBloc: values inside Match sections, quotation marks in values, the multi-valued keywords of sshd_config, vertical tabs and form feeds, which sshd does not take for blanks.
- NSS.ServieSsi: the actions in brackets of `nsswitch.conf`, which count as words.
- ConfGroupe.Racine.EcrireGroupe: directories, modes and owners; the temporary, backup and way-back names of a file are distinct from the files held, and a held file that is there can be read, as for an agent running as root.
- Reconciliation.Reconcilier: `sshd -T`, the reload of services and the update of dconf are outcomes left open, the last two counted; the reason text of the report.
- Regles.ProducteurVersion: the Windows agent, the proxy and the core have no part in these files.
- ConfigSSH.Fichier.ApplyUserSSHClientConfig: descriptors, owner and mode of the file; an absent file is the empty text.
- ConfigSSHCarte.CarteRaffinee: aliases and parameters that hold a line break.
- Texte.TrimSpace: strings are sequences of characters; invalid UTF-8 is not modelled.
- Session manager, socket servers, command-line tools, start-up of Nexus and of the proxy, debug reports: plumbing.
- Backoff, cron conversion, version triplets, truncation of details: they would only add easy members.
