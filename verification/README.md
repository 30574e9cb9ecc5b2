# Studio documents, verified

A model, in Dafny, of how Studio keeps its configured documents and of the
code around them, with proofs of what it keeps.

**The tenant-document store.** A document (one tenant, one kind) is kept as one
object per record and a header with its settings and version. `TenantDocument`
says how a document is split and read back, and `ObjectPort` what the objects
are kept in. `ModelMetadata` is the client in front of account-management, its
methods call by call, where any call may fail and a crash is a run of failures
to the end. `Migration` and `StoreSwitching` say what the two stores stand for
together while a document moves in and back. Writers on any replica compete for
the next version through create-once claims (`VersionClaims`); `ClaimProtocol`
is that competition as a state machine over its steps, with one clock, failed
writes and crashes anywhere.

**Its clients.** `OptimisticClients` is the three-attempt update of a project's
config, as a state machine of any number of callers and as the loop of one, and
`ConfigUpdates` puts those callers on top of the claim protocol;
`ProjectSources` and `RepositoryUrls` the edits made through it and the
directories sources are checked out into; `ModelSweep` the start-up sweep over
the tenant tree; `OrgScope` the cached walk to a tenant's organization.

**The access document.** `AccessConfig` holds the questions asked of it and the
rewriting of its grants, `OwnerProjection` the owner grant.

**Two small cores.** `ApiContract` blanks line comments and finds call
arguments, byte by byte, and `RustReading` is what Rust reads in the same bytes;
`Mixture` is the length-weighted mixture, over exact reals.

`Prelude` and `Json` hold what they share. `dafny verify dfyconfig.toml` checks
the project.

## What the proofs found

- The claims keep writers apart exactly when a call takes no longer than a claim
  lives, and keep updates from being lost exactly when two calls together do not.
- A write with an expected version of 0 or below is not checked against what it
  replaces by the optimistic callers: they serialise exactly above 0.
- A document deleted in the model and written again while account-management is
  in use stays behind a header that says deleted, and is gone when the model is
  back in use.
- Rekeying keeps everybody's authority in documents that can be read. It can make
  an unreadable document readable, by dropping a malformed grant as a duplicate,
  and whoever that document named then holds what it grants them. It takes a grant
  on the project named by the empty string for one that names no project.
- The owner grant takes any failed read of the document for a missing one and
  writes a fresh document over it: every other grant of the organization is lost.
- A delete that stops between its two writes leaves a live, empty document; a write
  that stops leaves new records beside old ones under the old version.
- A move back to account-management that stops after taking records out, and is
  tried again, writes the partly emptied copy over the whole document in the row.
- Moving a row into the model keeps the document exactly when the row is storable:
  of two records with one key one is lost, and the row is dropped.
- When a move back fails before anything has left the model, a later write or
  delete under account-management still succeeds, and the next touch writes the
  old copy over it.
- A config update made on a document that another write left half done lands, with
  the half of it that nobody was answered for.
- A gear repository folded into a source that matches by path alone may have no
  clone URL, and then new gears have no source.
- The sweep takes the last tenant of its queue, so it goes depth first, though its
  comment says breadth first; which tenants it meets is the same.
- The comment stripper reads some source otherwise than Rust. It says an escaped
  character literal such as `'\n'` has a quote two bytes on; it has one three bytes
  on, so such a literal, and one of a character of several bytes, is read as code:
  after `'\"'` a comment is taken for part of a string and stays. It knows no raw
  strings, so a quote within one closes it, and a backslash at its end hides the
  quote after it. It knows no block comments, so a quote in one opens a string, and
  two slashes in one blank the rest of the line.
- The sweep reads fifty pages of children and answers them without saying there
  were more.
- Leaving `domain.model` out of the privileges that imply writing domain objects
  changes nothing: it would not count anyway.

## Model

| member | source | states |
|---|---|---|
| VersionClaims.ClaimableUnique | studio-backend/src/model_metadata.rs:652-696 | at most one version is there for a writer to claim, so which one it gets is decided by the claims alone |
| VersionClaims.LoneWriter | studio-backend/src/model_metadata.rs:652-696 | a writer facing only released or expired claims gets the version past them exactly when they are fewer than eight: the window is tight |
| ClaimProtocol.MutualExclusion | studio-backend/src/model_metadata.rs:660-693 | over every interleaving of calls, failures and crashes in which no call outlives a claim, at most one live call is between its claim and its header put or release |
| ClaimProtocol.MutualExclusionBound | studio-backend/src/model_metadata.rs:94-98 | writers are alone in every run whose calls take at most `d` exactly when `d <= CLAIM_TTL` |
| ClaimProtocol.BothWrite | studio-backend/src/model_metadata.rs:652-696 | the run that shows it: past the expiry a second call claims the next version while the first still writes |
| ClaimProtocol.CommitsRiseWhole | studio-backend/src/model_metadata.rs:560-640 | under the same bound header versions strictly rise, and when a header is put the parts hold exactly that call's document |
| ClaimProtocol.NoLostUpdate | studio-backend/src/model_metadata.rs:879-950 | when two calls together do not outlive a claim, every step leaves the committed document alone or replaces exactly the version its call read, and a call that expected a version above 0 replaces exactly that one |
| ClaimProtocol.NoLostUpdateBound | studio-backend/src/model_metadata.rs:94-98 | no update is lost in any run whose calls take at most `d` exactly when `2 * d <= CLAIM_TTL` |
| ClaimProtocol.SecondOverwrites | studio-backend/src/model_metadata.rs:652-696 | the run that shows it: a second call skips a version that is already on the header, as expired, and overwrites it |
| ClaimProtocol.ClaimsNeverReused | studio-backend/src/model_metadata.rs:642-696 | in every reachable state, however long calls take, the claims are an unbroken run above the starting version with the header's version within it, and a claim once created stays and stays its creator's |
| ClaimProtocol.ProbesFindClaimable | studio-backend/src/model_metadata.rs:660-695 | probing version by version, while others claim and release, ends in a claim of the claimable version of that moment, and a call is refused only when there is none |
| OptimisticClients.Serialises | studio-backend/src/project_sources.rs:478-512 | in every run of any number of callers the config is the composition, in version order, of exactly the changes answered `Ok(true)`, each applied to the value it replaced; nobody reads a fourth time |
| OptimisticClients.SerialisesBound | studio-backend/src/project_sources.rs:499-501 | callers serialise in every run exactly when the document they start from has a version above 0 |
| OptimisticClients.Unversioned | studio-backend/src/project_sources.rs:499-501 | below that the write is unconditional, and the second of two callers loses the first's change |
| OptimisticClients.SharedConfig.Update | studio-backend/src/project_sources.rs:478-512 | one caller's loop, with any writes by others around each of its calls: its change lands once when it answers `Ok(true)`, never otherwise, within three reads |
| ConfigUpdates.Refines | studio-backend/src/project_sources.rs:478-512 | with each write a call of the claim protocol, taken step by step among the others, every step is one step of the callers on one checked register or changes nothing they see |
| ConfigUpdates.UpdatesSerialise | studio-backend/src/project_sources.rs:478-512 | so over the claim protocol, when two writes together do not outlive a claim and reads find the document whole, the config is the composition of exactly the changes answered `Ok(true)` |
| ConfigUpdates.UpdatesSerialiseBound | studio-backend/src/model_metadata.rs:94-98 | both are needed: the callers serialise in every run exactly when `2 * d <= CLAIM_TTL` and reads find the document whole |
| ConfigUpdates.TornPuts | studio-backend/src/model_metadata.rs:572-611 | without the second: a caller makes its change of a document another write left half done, and lands it |
| ObjectPort.ListingUnique | studio-backend/src/model_metadata.rs:515-524 | a query ordered by position has one answer when positions differ |
| TenantDocument.ItemIdInjective | studio-backend/src/model_metadata.rs:164-173 | objects of different entities, tenants or keys have different ids |
| TenantDocument.PartRoundTrip | studio-backend/src/model_metadata.rs:384-400 | a part written over anything and read back holds its records in order, exactly when they are objects with distinct keys and no reserved field |
| TenantDocument.RoundTrip | studio-backend/src/model_metadata.rs:560-640 | a document written over any earlier contents reads back as itself with absent parts filled in empty, at its version, exactly when it is storable |
| TenantDocument.NormalizedAgain | studio-backend/src/model_metadata.rs:494-558 | filling in the absent parts is done once: a document read back reads back as it is |
| TenantDocument.PresentIsNormal | studio-backend/src/model_metadata.rs:494-558 | a document with every part there, lists as lists and maps as maps, reads back unchanged |
| TenantDocument.StorableAgain | studio-backend/src/model_metadata.rs:384-400 | what was read back can be written again |
| TenantDocument.OthersUntouched | studio-backend/src/model_metadata.rs:560-640 | whatever a call does to one document, every document of another tenant or kind reads as before and keeps its header |
| Migration.MovePreserves | studio-backend/src/model_metadata.rs:769-805 | a stage the move of any row can be left at stands for the document it stood for exactly when nothing was copied or the row is storable, and always for one at the same version; moving again changes nothing more, and a row written after the copy is never read |
| Migration.MoveExact | studio-backend/src/model_metadata.rs:769-805 | the copy a move makes stands for the row it was made from, whether that is then dropped or not, exactly when the row is storable |
| Migration.TwinRecords | studio-backend/src/model_metadata.rs:769-805 | a row that is not: two records with one key, of which the move loses one for good |
| Migration.CopyMade | studio-backend/src/model_metadata.rs:560-640 | after a complete write of any document the model holds it live, at its version and with its mark, and as it was given exactly when it is storable |
| Migration.CopyUnmade | studio-backend/src/model_metadata.rs:769-805 | a copy that failed half way leaves what the model says of the document |
| Migration.MarkClearedOnHeader | studio-backend/src/model_metadata.rs:741-756 | clearing the mark on the header clears the mark and nothing else |
| Migration.MarkedDeleted | studio-backend/src/model_metadata.rs:990-1014 | the delete mark on the header makes the document deleted at its version, whatever its parts hold |
| Migration.HeaderReturned | studio-backend/src/model_metadata.rs:323-338 | the marks of the move back make the document returned at its version and leave its items |
| Migration.StoppedWrite | studio-backend/src/model_metadata.rs:572-611 | a write of a live document that stops after some parts leaves it live under its old version, reading as it did exactly when the parts written were already what they are written to be |
| Migration.StoppedMoveBack | studio-backend/src/model_metadata.rs:311-322 | a move back that stops after taking out some parts leaves a live copy for the next try, which is the document exactly when those parts were empty |
| Migration.HalfDeleted | studio-backend/src/model_metadata.rs:984-1014 | between its two writes a delete leaves the document there and empty; only the second makes it gone |
| StoreSwitching.TouchedAgain | studio-backend/src/model_metadata.rs:1188-1200 | a document brought to the store in use is there: bringing it again changes nothing |
| StoreSwitching.RestartKeeps | studio-backend/src/model_metadata.rs:103-131 | switching the strategy keeps what is answered exactly when no row stands behind a document the model holds deleted |
| StoreSwitching.ListsMove | studio-backend/src/model_metadata.rs:384-400 | a storable document whose list parts are lists can be kept in either store |
| StoreSwitching.SurvivesBothWays | studio-backend/src/model_metadata.rs:285-345 | a document written to the model, moved back, and moved in again is what was written each time exactly when it is storable as given and as it reads back |
| StoreSwitching.StorableOnce | studio-backend/src/model_metadata.rs:173-191 | one that is storable only once: a list part given as a map whose two records have one id |
| StoreSwitching.StepPlain | studio-backend/src/model_metadata.rs:809-1016 | every read, write, delete and restart answers as for a document kept in one place, exactly unless it puts the other strategy in use while a row is hidden behind a deleted copy; a mark still set or a row still there does not matter |
| StoreSwitching.StepClean | studio-backend/src/model_metadata.rs:285-356 | each leaves at most one store holding the document exactly when it is no write through account-management of a document the model holds deleted |
| StoreSwitching.InOneStore | studio-backend/src/model_metadata.rs:285-356 | after a read exactly the store in use holds the document, and only if there is one |
| StoreSwitching.RunPlain | studio-backend/src/model_metadata_tests.rs:527-565 | over any number of switches, reads, writes and deletes without failures, the document is after each of them what one store would hold, exactly when the strategy is never changed while a row is hidden |
| StoreSwitching.RunClean | studio-backend/src/model_metadata.rs:285-356 | and each leaves one store at most holding it, exactly when none of them hides a row |
| StoreSwitching.WrittenWhileHiddenIsLost | studio-backend/src/model_metadata.rs:769-805 | a document deleted in the model and written again under the other strategy is gone once the model is back in use |
| StoreSwitching.StaleCopyOverwrites | studio-backend/src/model_metadata.rs:285-345 | where a move back failed before anything left the model, the next touch writes the old copy over what was written to account-management in between, which survives exactly when it is the same document |
| StoreSwitching.StaleCopyComesBack | studio-backend/src/model_metadata.rs:285-345 | and what was deleted there in between comes back |
| ModelMetadata.Client.Split | studio-backend/src/model_metadata.rs:384-400 | the settings are the document without its parts, the parts its records with their keys, in order |
| ModelMetadata.Client.ReadPart | studio-backend/src/model_metadata.rs:513-543 | a part read back is its stored records by position, without the fields they are stored with, as a list or a map |
| ModelMetadata.Client.Read | studio-backend/src/model_metadata.rs:494-558 | the answer is the document the store holds, none when it has no header or is deleted |
| ModelMetadata.Client.RemoveGone | studio-backend/src/model_metadata.rs:578-590 | exactly the stored records that are not kept go; a failure leaves every other document alone |
| ModelMetadata.Client.PutChunks | studio-backend/src/model_metadata.rs:609-611 | putting five hundred at a time puts them all; a failure between chunks leaves only this document torn |
| ModelMetadata.Client.WriteItems | studio-backend/src/model_metadata.rs:571-612 | a part written over anything is that part |
| ModelMetadata.Client.Write | studio-backend/src/model_metadata.rs:560-640 | a write that succeeds is the whole document; one that fails has not touched the header, and nothing else either way |
| ModelMetadata.Client.DropLegacy | studio-backend/src/model_metadata.rs:726-765 | wherever it is left, the row is there or gone and the mark cleared only after it is gone; the document stands |
| ModelMetadata.Client.Moved | studio-backend/src/model_metadata.rs:769-805 | it answers the document both stores stand for, whatever its row is, and with no failure it succeeds with nothing of the row left behind; a failed move leaves both stores as they were; they stand afterwards for what they stood for exactly when nothing was copied or the row is storable |
| ModelMetadata.Client.RemoveAllItems | studio-backend/src/model_metadata.rs:311-322 | the records go part by part, those of the parts before a failure and no others |
| ModelMetadata.Client.TakeOut | studio-backend/src/model_metadata.rs:311-338 | the records of a document are gone from the model and its header says it went back, at its version; left before that, only the records of some first parts are gone |
| ModelMetadata.Client.GiveBack | studio-backend/src/model_metadata.rs:298-338 | account-management holds exactly the document the model held, and the model none of it; wherever it stops, nothing left the model before the row held it whole, and then only the records of some first parts |
| ModelMetadata.Client.BackToAm | studio-backend/src/model_metadata.rs:285-356 | a live document goes back whole, once per process; where the move stops before it is finished, the stores are as they were, or the row holds the whole document and the records of some first parts are gone from a copy still live at its version; a deleted or absent one is left alone |
| ModelMetadata.Client.ClaimVersion | studio-backend/src/model_metadata.rs:652-696 | it creates the claim of the least version after the live one that is not claimed, when every claim before it may be skipped and it is at most eight on; otherwise it creates none |
| ModelMetadata.Client.Release | studio-backend/src/model_metadata.rs:699-722 | the claim of a failed write is marked released, or left as it is |
| ModelMetadata.Client.GetMetadata | studio-backend/src/model_metadata.rs:810-829 | with documents in the model it answers the document both stores stand for, whatever the row is, not found exactly when there is none; it leaves them standing for it exactly unless it moved in a row that is not storable; with documents in account-management it answers the row, which is the document exactly when no different live copy, whose move back failed, is still in the model |
| ModelMetadata.Client.WriteClaimed | studio-backend/src/model_metadata.rs:924-949 | a failed write releases its claim and leaves header and row; one that succeeds leaves the document live at the claimed version, as it was given exactly when it is storable |
| ModelMetadata.Client.Settle | studio-backend/src/model_metadata.rs:893-906 | after the move it answers the live version, the header's version, the mark and whether there is a document, of any row; with none it moved nothing |
| ModelMetadata.Client.WriteNext | studio-backend/src/model_metadata.rs:914-949 | it writes under the least claimable version, and succeeds exactly when there is one |
| ModelMetadata.Client.UpsertInModel | studio-backend/src/model_metadata.rs:893-949 | a successful write replaced the version its caller expected with the document, at the least claimable version after the header's, whatever the row it may have moved in first; with no failure it is refused exactly when the version is another or none is claimable, and then nothing of the new document was written and no version claimed |
| ModelMetadata.Client.UpsertMetadata | studio-backend/src/model_metadata.rs:879-950 | with documents in the model a successful write leaves the document there at its version, as it was given exactly when it is storable; with documents in account-management it leaves the row, and that is the document exactly when no different live copy, whose move back failed, is still in the model: with no failure there is none; a write refused with no failure only moves the document, and one that fails on a document in the model leaves its header |
| ModelMetadata.Client.MarkDeleted | studio-backend/src/model_metadata.rs:996-1014 | the document is deleted at the version of its header, or nothing happened |
| ModelMetadata.Client.WriteDeleted | studio-backend/src/model_metadata.rs:984-1014 | the document is deleted as that version; left half way it is torn under its old version, or live and empty |
| ModelMetadata.Client.DeleteInModel | studio-backend/src/model_metadata.rs:968-1015 | a document that is there, whatever its row is, becomes deleted one version on; without one the answer is not found and nothing is changed; where a failure can leave it is one of four stages |
| ModelMetadata.Client.DeleteMetadata | studio-backend/src/model_metadata.rs:953-1016 | with documents in the model a delete that succeeds leaves none, whatever the row was; with documents in account-management it leaves no row, and so no document exactly when no live copy, whose move back failed, is still in the model: with no failure there is none; with no failure, not found is answered exactly when there was none |
| ModelMetadata.AncestryDistinct | studio-backend/src/model_metadata.rs:855-866 | a walk up meets no tenant twice, whatever the parents |
| ModelMetadata.Client.ResolveInModel | studio-backend/src/model_metadata.rs:852-868 | it ends on every parent relation and answers the document of the nearest tenant of the chain that has one, whatever any row holds; only that document may have moved, and none when it answers none or fails |
| ModelMetadata.Client.ReturnChain | studio-backend/src/model_metadata.rs:837-850 | the tenant and every ancestor are touched: each is moved back once and for all, or left as it was, or with its row whole and a live copy at its version; with no failure all are moved back |
| ModelMetadata.Client.Touch | studio-backend/src/model_metadata.rs:1188-1200 | one document is brought towards the store in use, to a stage of its move in or of its move back, and with no failure all the way; a touch that fails leaves it; every other document stands as it was |
| ModelMetadata.TouchDone | studio-backend/src/model_metadata.rs:1188-1200 | what a touch with no failure leaves is what the failure-free life of `StoreSwitching` takes it for, when documents are in account-management or the row is storable |
| ModelMetadata.Client.Prepare | studio-backend/src/model_metadata.rs:1188-1200 | every document of a tenant is touched in turn, up to the first failure; the one that failed and those after it stand as they were; with no failure it succeeds, whatever the rows hold |
| ModelSweep.ListChildren | studio-backend/src/model_sweep.rs:94-117 | the children on the first fifty pages, none when a page or its cursor fails |
| ModelSweep.ChildrenComplete | studio-backend/src/model_sweep.rs:99-116 | no child is left out exactly when every page past the limit is empty |
| ModelSweep.SweepOrg | studio-backend/src/model_sweep.rs:143-164 | on any graph, cyclic too, it ends, having visited exactly the tenants at or below the organization, each once, with every mover in turn; the root only in its own turn |
| ModelSweep.EarlyMoversFirst | studio-backend/src/model_sweep.rs:134-134 | the movers are all there, early ones first, each class in the order it registered |
| ModelSweep.EarlyVisitFirst | studio-backend/src/model_sweep.rs:33-37 | on a tree the early movers visit each tenant before the others do |
| ModelSweep.SweepWith | studio-backend/src/model_sweep.rs:125-165 | its result counts the organizations and the tenants made ready; no mover means no work, and an unlistable root an error |
| ModelSweep.SweepComplete | studio-backend/src/model_sweep.rs:119-165 | on any graph the plans of the organizations hold exactly the tenants at or below the root, once in each plan; on a tree each is in one plan only |
| ModelSweep.VisitsEachOnce | studio-backend/src/model_sweep.rs:119-165 | on a tree every mover is asked once for every tenant at or below the root, and never for another |
| ModelSweep.AsksForReached | studio-backend/src/model_sweep.rs:119-165 | on any graph the tenants a mover is asked for are exactly those at or below the root |
| ModelSweep.VisitedOnce | studio-backend/src/model_sweep.rs:1-10 | however often a document is visited, by movers whose calls do not fail, it is brought to its store once, whatever its row is |
| ModelSweep.SecondSweepChangesNothing | studio-backend/src/model_sweep.rs:1-10 | on any graph, after a sweep with no failure, a second one by movers that took part in the first leaves every document as the first left it, after each of its visits and whichever of them fail |
| OrgScope.WalkReaches | studio-backend/src/org_scope.rs:89-102 | a walk with `n` levels to go ends at the organization exactly when it is no more than `n` up, and at the ancestor `n` up otherwise |
| OrgScope.OrgFound | studio-backend/src/org_scope.rs:74-106 | sixteen levels are enough exactly for tenants at most sixteen below their organization; an organization is its own |
| OrgScope.OrgUnique | studio-backend/src/org_scope.rs:74-76 | a tenant has one organization, at one distance |
| OrgScope.Organizations.OrgOf | studio-backend/src/org_scope.rs:77-106 | whatever reads failed before, each kept answer is what a full walk finds; a read that fails answers the tenant itself and keeps nothing |
| RepositoryUrls.SpellingNames | studio-backend/src/project_sources.rs:190-205 | scheme, credentials, `.git`, trailing slashes and ASCII case do not change which repository a URL names |
| RepositoryUrls.SpellingsAgree | studio-backend/src/project_sources.rs:209-214 | two spellings are the same repository exactly when host and path agree up to case |
| ProjectSources.CheckoutDir | studio-backend/src/project_sources.rs:129-147 | the directory is never empty and of letters, digits, `_` and `-` only |
| ProjectSources.FreeDir | studio-backend/src/project_sources.rs:166-173 | the suffix loop ends at the first name that is free |
| ProjectSources.Parse | studio-backend/src/project_sources.rs:154-186 | the loop over the list gives each clonable entry its source and directory |
| ProjectSources.DirectoriesApart | studio-backend/src/project_sources.rs:149-153 | no two sources share a directory, and each has its base name or the least free suffix given those before it |
| ProjectSources.DirectoriesPlain | studio-backend/src/project_sources.rs:127-147 | every directory, with its suffix, is one plain path segment |
| ProjectSources.AppendingKeeps | studio-backend/src/project_sources.rs:149-186 | appending sources changes nothing of those before |
| ProjectSources.UnclonableTakesNothing | studio-backend/src/project_sources.rs:149-164 | an entry without a clone URL changes no other source, wherever it stands |
| ProjectSources.ProjectConfig.MarkOnly | studio-backend/src/project_sources.rs:322-340 | marking in place: the list with the flag moved, and whether some source is the repository |
| ProjectSources.MarksExactly | studio-backend/src/project_sources.rs:319-340 | the flag is on exactly the entries that name the repository, and no other field of any of them changes |
| ProjectSources.ProjectConfig.FoldGearRepo | studio-backend/src/project_sources.rs:253-306 | folding in place, answering true exactly when the config changed |
| ProjectSources.FoldChanges | studio-backend/src/project_sources.rs:245-252 | a fold changes the config exactly when it names a repository and no source has the flag, and then some source has it |
| ProjectSources.FoldIdempotent | studio-backend/src/project_sources.rs:245-252 | folding again changes nothing, nor does folding another record after one was folded |
| ProjectSources.ProjectConfig.SetGearsHere | studio-backend/src/project_sources.rs:311-317 | the flag moved in place, always answering a change |
| ProjectSources.FlagCount | studio-backend/src/project_sources.rs:308-317 | exactly how many sources carry the flag afterwards: all that named the repository, else one, else none when the record names no repository |
| ProjectSources.OnlyTheFlagMoves | studio-backend/src/project_sources.rs:308-317 | no source is lost or moved, no other field of one changes, and one is added at most |
| ProjectSources.GearsGoToRepository | studio-backend/src/project_sources.rs:235-238 | once the flag moved to a repository that is a source, new gears go to that repository |
| ProjectSources.GearsSourceExists | studio-backend/src/project_sources.rs:235-238 | there is a source for new gears exactly when a flagged entry can be cloned |
| ProjectSources.GearsSourceAfterFold | studio-backend/src/project_sources.rs:253-306 | where the flag was taken by path alone, there is a source for new gears exactly when that entry has a clone URL |
| AccessConfig.CarriesExactly | studio-backend/src/access_config.rs:80-101 | a role carries reading domain objects exactly when it may see or change anything, writing them exactly when it may change anything, and any other privilege exactly when it lists it |
| AccessConfig.OwnersHoldAll | studio-backend/src/access_config.rs:237-252 | an owner holds every privilege, whatever roles the document defines |
| AccessConfig.PrivilegedAreMembers | studio-backend/src/access_config.rs:214-236 | whoever holds a privilege across the organization is among the subjects of every project |
| AccessConfig.OthersAdministerNothing | studio-backend/src/access_config.rs:196-213 | a team grant or a grant on a project changes nobody's privileges or ownership across the organization |
| AccessConfig.AccessDocument.RewriteAll | studio-backend/src/access_config.rs:401-416 | the loop rewrites every member grant to the key its subject goes by and counts those it changed |
| AccessConfig.AccessDocument.Retain | studio-backend/src/access_config.rs:417-439 | of grants that are one, the first stays |
| AccessConfig.AccessDocument.RekeyMemberGrants | studio-backend/src/access_config.rs:391-441 | the rewritten document, and how many grants it changed or dropped |
| AccessConfig.RekeyedCount | studio-backend/src/access_config.rs:383-390 | zero is answered exactly when nothing changed |
| AccessConfig.DedupedCovers | studio-backend/src/access_config.rs:417-439 | no grant is dropped without one like it being kept |
| AccessConfig.AuthorityPreserved | studio-backend/src/access_config.rs:383-441 | of every document: ownership and every privilege of a closed set of subjects are as before, exactly unless the document could not be read, can be now, and has a grant by which they hold it |
| AccessConfig.ClosureBound | studio-backend/src/access_config.rs:383-441 | owners among a set of subjects are kept, in every document rekeying leaves readable or unreadable as it was, exactly when the set is closed under the rekeying |
| AccessConfig.MembershipPreserved | studio-backend/src/access_config.rs:222-236 | of every document: the members of a named project are the same people by the keys they now go by, exactly unless the document could not be read, can be now, and places somebody there |
| AccessConfig.MembershipBound | studio-backend/src/access_config.rs:417-439 | members are kept, in every document rekeying leaves readable or unreadable as it was, exactly for the projects that have a name |
| AccessConfig.UnnamedProjectLost | studio-backend/src/access_config.rs:417-439 | the document that shows it: a grant on the project `""` is dropped for one that names none |
| AccessConfig.RekeyedReadable | studio-backend/src/access_config.rs:391-441 | a document can be read after rekeying exactly unless the rest of it could not, or some malformed grant repeats no earlier one |
| AccessConfig.MalformedGrantHid | studio-backend/src/access_config.rs:391-441 | the document that shows it: a malformed grant hid an owner, was dropped as a repeat, and the owner owns |
| AccessConfig.RekeyIdempotent | studio-backend/src/access_config.rs:383-441 | where new keys stand for themselves, rekeying twice is rekeying once |
| OwnerProjection.StoredAccess.SetOwnerGrant | studio-backend/src/access_config.rs:318-381 | the stored document afterwards: the edit of what was read, or of a fresh document when the read failed, whole or not at all |
| OwnerProjection.StoredAccess.Edit | studio-backend/src/access_config.rs:332-374 | the edit in place, or the error for a document that is no object or whose grants are no list |
| OwnerProjection.OneOwnerGrant | studio-backend/src/access_config.rs:308-381 | the person holds exactly one organization-wide owner grant across all their keys, on the person's key, or none; every other stored grant is there in its order exactly when the document was read or had none |
| OwnerProjection.FailedReadForgets | studio-backend/src/access_config.rs:327-331 | the case that fails: another owner is stored, the read fails, and they own nothing afterwards |
| OwnerProjection.RepeatedOnce | studio-backend/src/access_config.rs:310-312 | doing it again gives what doing it once would, but for the fresh grant id |
| OwnerProjection.WrittenReadable | studio-backend/src/access_config.rs:332-374 | the document can be read afterwards exactly when all but the person's own grants could be, with roles filled in when it defined none |
| OwnerProjection.OthersKeepPrivileges | studio-backend/src/access_config.rs:318-381 | nobody else loses the ownership or a privilege they held in the stored document, exactly when it was read or they held none |
| OwnerProjection.OthersGainNothing | studio-backend/src/access_config.rs:336-348 | nobody else gains one, exactly unless the document could not be read and now can, or defined no roles and the ladder gives them one |
| OwnerProjection.OwnerAsAsked | studio-backend/src/access_config.rs:308-381 | the person is an owner afterwards exactly when they were to be one and the document can be read |
| ApiContract.BlankLine | studio-backend/src/api_contract.rs:290-295 | a comment becomes as many spaces, up to the end of its line |
| ApiContract.StripLineComments | studio-backend/src/api_contract.rs:259-305 | the loop with its two flags gives the pointwise stripping |
| ApiContract.BlankedExactly | studio-backend/src/api_contract.rs:254-305 | the bytes that change are exactly those between two slashes read as code and the end of their line |
| ApiContract.LinesKept | studio-backend/src/api_contract.rs:423-423 | every offset is on the line it was on |
| ApiContract.StripIdempotent | studio-backend/src/api_contract.rs:254-305 | stripping what was stripped changes nothing |
| ApiContract.StrippedMode | studio-backend/src/api_contract.rs:254-305 | a reading of the stripped text finds the same literals at the same places |
| ApiContract.StaysText | studio-backend/src/api_contract.rs:304-304 | text stays well-formed UTF-8, so the fallback to the unstripped text is never taken |
| RustReading.FlagsAgree | studio-backend/src/api_contract.rs:254-305 | the two flags read every byte as Rust does exactly when there is none of these to miss: a character literal that is an escape or of several bytes, a quote or a closing backslash in a raw string, and whatever in a block comment looks like a string, a character or a comment |
| RustReading.StripsLineComments | studio-backend/src/api_contract.rs:240-305 | where nothing is missed, what is blanked is exactly the line comments of the source as Rust reads it |
| RustReading.EscapedQuoteOpens | studio-backend/src/api_contract.rs:287-293 | after an escaped quote as a character literal, the comment that follows is read as a string and stays |
| RustReading.RawBackslashStays | studio-backend/src/api_contract.rs:263-276 | and after a raw string that ends in a backslash |
| RustReading.BlockQuoteOpens | studio-backend/src/api_contract.rs:281-285 | and after a block comment with a quote in it |
| RustReading.BlockSlashesBlank | studio-backend/src/api_contract.rs:294-299 | two slashes in a block comment blank the code that follows it on its line |
| ApiContract.Balanced | studio-backend/src/api_contract.rs:311-346 | the shortest slice after the parenthesis whose own parentheses outside string literals balance, and none exactly when there is no such slice; the depth never underflows |
| Mixture.AddShares | studio-frontend-prototype/src/analysis.ts:52-55 | one result adds each of its numeric shares once, weighted, to the totals |
| Mixture.WeightedMixture | studio-frontend-prototype/src/analysis.ts:42-65 | the loops compute each role's weighted share of the counted length, and the empty mixture when nothing is counted |
| Mixture.MixtureWhole | studio-frontend-prototype/src/analysis.ts:29-41 | when the shares of every counted result add up to 1, so do those of the set |
| Mixture.MixtureBetween | studio-frontend-prototype/src/analysis.ts:29-41 | each role lies between any bounds its shares in the counted results lie between, absent counted as 0 |
| Mixture.MixtureUnordered | studio-frontend-prototype/src/analysis.ts:42-65 | the order of the results does not matter |

## Left out

- UpsertInModel: says of a write that fails under way on a live document that it leaves the header; which records are then stored is said by `Migration.StoppedWrite` for a stop between parts, not within one.
- NoLostUpdate: is about calls that read a header, on a document in the model and no longer marked; `moved`, `drop_legacy`, `delete_metadata` and `back_to_am` write the header without a claim and take no part in it.
- ClaimsNeverReused: is about runs without a return to account-management, which numbers its own rows.
- StepPlain: is about documents that can be kept in either store: storable as they are given and as they read back.
- ResolveInModel: stands for the walk with documents in the model; under the other strategy the documents move back (`ReturnChain`) and account-management, whose code is not part of this model, resolves.
- SecondSweepChangesNothing: is about the tenant documents; what other movers keep is not part of this model.
- OthersGainNothing: takes the seeded role ladder as any readable list of roles; its fixed contents are not modelled.
- AddShares: gathers into a map; a role named like a member every plain object inherits, such as `constructor` or `toString`, comes out NaN in the original, and no such name is special here.
- FlagsAgree: reads a first line that starts with `#!` as code, where Rust skips it, and takes white space outside ASCII (such as U+2028) for part of a word, so that no raw string starts right after it.
- UpdatesSerialise: takes the header's version and the parts as read together; reads between whose two halves a header is put are not modelled.
- MixtureWhole: is over exact reals; floating-point rounding, infinities and NaN are not modelled.
- `expected_version` 0: it is compared with an earlier read than the header read, so nothing is stated of it across concurrent calls.
- Clock skew between replicas, and errors reported after the effect landed.
- The time a document was written: headers carry no `updated_at` here.
- Numbers in JSON are integers, and how a value that is no string is spelled in a key, how the keys of a map are ordered, Unicode lower case and UUID parsing are parameters.
- Type and field provisioning, logging, and the security contexts calls are made under.
- A JSON array read where a document, role or grant is expected: the library fills the fields by position, the model does not.
- What the store adds to an object beyond its scope, and its query limits.
- Tenant and organization ids are strings; they hold no colon, as UUIDs do not.
- The calls that pass straight through to account-management, and the lookup of a kind by type.
- The rules an API contract is held to, the chain parser around `balanced`, and the files it reads.
- `repositories`, `description_home`, `publish_source` and the connection lookups of `project_sources.rs`: one-line selections over the parsed list.
- `rekey_grants_in`, which reads, rekeys and writes back: one call of each.
