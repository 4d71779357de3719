# A verified model of the mock server's core

The Go backend keeps a registry of mock endpoints with their version history,
answers requests to them with generated bodies, keeps the resources of stateful
endpoints, and imports endpoints from OpenAPI documents and Postman collections.
This project models those parts in Dafny and proves what they promise.
`dafny verify dfyconfig.toml` checks all of it.

| file | models |
|---|---|
| `Registry.dfy`, `History.dfy` | the endpoint and version tables, the service's operations on them, and the invariant of gapless histories |
| `Interleaving.dfy`, `Requests.dfy` | the operations split into the repository calls that concurrent requests interleave, and requests served without interruption |
| `Isolation.dfy`, `Rollback.dfy`, `Importing.dfy` | isolation of accounts, rollback and diff, imports |
| `Requested.dfy`, `Listings.dfy` | which requests are refused, what the others store, and what the listings show |
| `Provenance.dfy`, `Overtaking.dfy` | where schemas come from, and exactly when interleaved edits mix them up |
| `ListCache.dfy`, `Spelling.dfy`, `Staleness.dfy` | the read-through cache of active endpoints: without overlapping requests, for reads not in upper case, and with overlapping requests |
| `Service.dfy` | repository, cache and service as objects with mutable state, proved against the operations on tables |
| `Merge.dfy`, `SharedMerge.dfy` | the deep merge, on values and on maps in memory that share members |
| `Stateful.dfy`, `Serving.dfy` | the stateful resource generator under interleaving, and its requests from path to resource |
| `Schema.dfy`, `Filler.dfy`, `Fills.dfy`, `Infer.dfy`, `Pipeline.dfy` | JSON Schema validity, the schema-driven filler and what it fills each kind of schema with, inference from samples, and the generate, validate, retry and fall back pipeline |
| `Refs.dfy`, `RefTexts.dfy` | resolving `$ref`s in place over a heap of shared nodes, and exactly when that turns objects into `$ref`s |
| `Paths.dfy`, `Postman.dfy` | routing, templates, and URL conversion |
| `Render.dfy`, `Variables.dfy` | prompt placeholders and the request's variables |
| `Basics.dfy`, `Json.dfy`, `Text.dfy` | options and results, JSON values, string helpers |

Loops of the source are methods with loop invariants, proved equal to functions;
Go's random map order is an arbitrary choice in them. Objects the source updates
in place are classes; `$ref` resolution and the deep merge work on an explicit heap
because sharing is their point. Random draws, AI answers, validator verdicts, fresh ids,
cache failures and the schedule of concurrent requests are arbitrary inputs, so
the theorems hold for every choice.

Assumptions, all on the side of the database and the standard library:

- `WithTx` does what its contract says, all or nothing
  (`internal/endpoint/repository.go:41-43`). The implementation discards the
  transaction handle and runs its statements on the pool
  (`internal/endpoint/repository.go:72-76`), so it does not keep that contract.
- A conflict inside an import's transaction leaves the transaction usable.
- Rows come back as they were written, in a fixed order of creation.
- UUIDs are fresh; strings are ASCII where case and white space matter; numbers
  are reals without rounding; integers do not overflow.

Where comments and code differ the model follows the code:

- An array's schema is inferred from its first non-null element, not from its
  first (`internal/importer/postman.go:278-303`).
- A POST takes the resource's id from the generated body, not from the request's
  (`internal/generator/stateful.go:85-106`).
- A minimum that is not given is 1 whatever the maximum; the clamp then swaps the
  two bounds (`internal/generator/faker.go:285-322`).

Properties that fail in general are stated with the exact condition under which
they hold, and with an input at which they fail: agreement with RFC 7396
(`NullFree`, `NullMemberDiffers`), patches in sequence (`Composable`,
`SequenceDiffers`), schemas the filler honours (`Fillable`, `LimitMatters`),
samples valid against their own schema (`Covers`, `MixedSamples`), cached reads
under another spelling (`Spelling`, `LowerReadExample`), Postman paths without a
leading slash (`SlashlessFormIff`), URLs within URLs (`VariableHostForm`,
`NestedUrlExample`), provenance under overlapping updates (`Steady`,
`MixingExample`), variables of the request body (`OneText`, `CollidingKeys`), and
`$ref`s kept by `$ref` resolution (`TextFree`, `TextUnderRefChangesMeaning`).

Terms used below. *Intact* tables: exactly the live endpoints have versions, these
are numbered 1..n, version n equals the endpoint, and no account has two endpoints
with the same method and path. A *fillable* schema uses the supported keywords
only (type, properties, required, items, enum, const, minItems, maxItems, minimum,
maximum), its fixed values obey their siblings, its bounds are in order once
defaulted, its required names are among its properties, and what lies at the depth
limit accepts null. Validity follows sections 6.1, 6.2.2, 6.2.4, 6.4.1, 6.4.2 and
6.5.3 of JSON Schema Validation and 10.3.1.2 and 10.3.2.1 of JSON Schema Core, both
draft 2020-12. A `$ref` object stands for its target whatever else it holds, as in
section 4.7.23 of OpenAPI 3.0.3.

## Model

| member | source | states |
|---|---|---|
| `History.ListedHistory` | internal/endpoint/repository.go:175-186 | An endpoint's owner is listed exactly its versions, latest first; the next number is their count plus one and each number 1..n finds its own snapshot, any other an error |
| `History.ListedToOthers` | internal/endpoint/repository.go:175-186 | Other accounts are listed no versions |
| `History.SnapshotEqualIff` | internal/endpoint/service.go:616-629 | The comparison that decides whether an update changed anything holds exactly if all ten versioned fields agree |
| `History.CreateKeepsIntact` | internal/endpoint/service.go:134-146 | Creating under a fresh id adds one endpoint with version 1, or is refused exactly if the account holds the method and path, and keeps the table invariant |
| `History.CommitKeepsIntact` | internal/endpoint/service.go:203-214 | The transaction of Update and Rollback succeeds if and only if the row still is the caller's, its key is free, and nobody stored the version number since it was computed; it then appends exactly that snapshot |
| `History.CommitOutcome` | internal/endpoint/service.go:257-265 | With an up-to-date version number only a taken method and path can make the transaction fail |
| `History.VersionNumberTaken` | migrations/000002_create_endpoint_versions.up.sql:8 | The numbers the unique constraint refuses are exactly 1..n |
| `History.DeleteKeepsIntact` | internal/endpoint/repository.go:107-124 | A deletion leaves no version behind and touches no other row |
| `Registry.NextVersion` | internal/endpoint/service.go:583-591 | The loop returns one more than the highest stored number |
| `Requested.RefusedFor` | internal/endpoint/service.go:429-525 | A request is refused for the first of method, path, prompt, request schema, error simulation, response type and status that is not as it has to be |
| `Requested.CreatedIff` | internal/endpoint/service.go:112-149 | A creation succeeds if and only if its request is as it has to be and the account has no endpoint with the method and path; otherwise nothing changes |
| `Requested.CreateStores` | internal/endpoint/service.go:112-149 | It stores every field of the request, with the defaults JSON, active and public, and version 1 with the generated schema |
| `Text.Trimmed` | internal/endpoint/service.go:527-532 | Trimming takes the spaces off both ends of a text and nothing else |
| `Text.CasesAgree` | internal/endpoint/service.go:117-122 | Texts agree in upper case if and only if they agree in lower case, and upper case has no small letters |
| `Requested.UpdatedIff` | internal/endpoint/service.go:151-223 | An update succeeds if and only if its request is as it has to be and no other endpoint of the account has the method and path |
| `Requested.UpdateStores` | internal/endpoint/service.go:166-214 | It stores every field of the request, keeping omitted ones, and appends one version with these fields if and only if they differ from the stored ones |
| `Requested.OnlyOwnRows` | internal/endpoint/service.go:225-301 | A deletion removes the row with its history; what is not an own row cannot be updated, rolled back, compared or deleted |
| `Listings.ReachableOrdered` | internal/endpoint/repository.go:78-86 | In every interleaving each row has one place in the order of creation |
| `Listings.PageIsStretch` | internal/endpoint/repository.go:141-166 | A page is the stretch it asks for of the listing of exactly the account's endpoints, latest first, with the number of all of them |
| `Listings.ListAnswers` | internal/endpoint/service.go:307-310 | That page is what a request for it is answered, in whichever state it comes |
| `Listings.ReadsAnswer` | internal/endpoint/service.go:275-317 | The reads answer with the own row, its versions latest first, and the comparison of a version with the latest one, or that there is none |
| `Listings.ActiveAreListed` | internal/endpoint/repository.go:188-199 | The list of a method holds exactly its active endpoints, each once, oldest first |
| `Interleaving.StepKeepsInv` | internal/endpoint/service.go:112-301 | Every repository call of Create, Update, Rollback, Delete and Import, taken in any order, keeps the invariant and only extends histories |
| `Interleaving.RunsKeepHistories` | internal/endpoint/service.go:151-270 | Over every interleaving: the invariant holds, snapshots once written never change, and a deleted id is never revived |
| `Interleaving.ReachableHistories` | internal/endpoint/service.go:583-614 | In every reachable state exactly the live endpoints have versions, numbered 1..n without gaps, the ten live fields equal version n, and no two endpoints of an account share method and path |
| `Interleaving.ImportKeepsIntact` | internal/endpoint/service.go:367-414 | Importing under fresh ids cannot fail half-way and changes no existing endpoint or history |
| `Isolation.OwnPages` | internal/endpoint/repository.go:141-166 | Every page of account B's list, latest first, and its count are the same whether or not other accounts have rows |
| `Isolation.OwnStep` | internal/endpoint/repository.go:88-186 | A step of account B, reads and diffs included, is answered the same and leaves the same rows of B, in the same order, whether or not other accounts have rows |
| `Isolation.OthersStep` | internal/endpoint/repository.go:88-139 | A step of another account changes none of B's rows and none of what B's unfinished requests hold |
| `Isolation.IsolatedByAccount` | migrations/000012_per_account_uniqueness.up.sql:4-5 | For every run of any accounts, all of B's answers (finding, listing, versions, diffs and changes) and B's rows equal those of the run with all other accounts' steps removed |
| `Isolation.IsolatedFromStart` | internal/endpoint/repository.go:88-186 | The same from the empty registry |
| `Rollback.DiffVersions` | internal/endpoint/service.go:643-667 | The field loop reports exactly the differing fields, in order |
| `Rollback.PatchReconstructs` | internal/endpoint/service.go:641-667 | Applying the diff of a and b to a gives all eleven fields of b and leaves a's identity and number |
| `Rollback.EmptyDiffIff` | internal/endpoint/service.go:272-274 | A diff is empty if and only if all eleven fields agree |
| `Rollback.ListedChangeIff` | internal/endpoint/service.go:643-667 | A diff names exactly the fields whose texts differ, each under its own name with the old and the new text |
| `Rollback.DiffAgainstLatest` | internal/endpoint/service.go:275-289 | Diff compares the named version with version n, and refuses every number outside 1..n |
| `Rollback.RollbackOutcome` | internal/endpoint/service.go:225-270 | A rollback is refused unless the number lies in 1..n-1; otherwise it commits what that version describes, and only a taken key stops it |
| `Rollback.RollbackRestores` | internal/endpoint/service.go:245-262 | After a rollback to v the endpoint holds v's ten fields and the history is the old one plus a copy of v, schema included, numbered n+1 |
| `Rollback.RollbackThenDiff` | internal/endpoint/service.go:225-289 | The diff of v is empty right after a rollback to v |
| `Rollback.RollbackUndone` | internal/endpoint/service.go:221-270 | Rolling back at once to the former latest version succeeds, restores the endpoint row and keeps both rollbacks in the history |
| `Rollback.UpdateOutcome` | internal/endpoint/service.go:151-219 | An update that changes a versioned field appends one snapshot, with the carried-over schema unless the prompt changed; one that changes none leaves the tables alone |
| `Rollback.CreateThenSameUpdate` | internal/endpoint/service.go:112-219 | Updating a new endpoint with what it was created from changes nothing and adds no version |
| `Rollback.RepeatedUpdate` | internal/endpoint/service.go:185-189 | The same update again changes nothing and adds no version |
| `Importing.ImportCounts` | internal/endpoint/service.go:368-412 | Created plus skipped grows by the number of items, and the rows by the number created |
| `Importing.ImportAddsKeys` | internal/endpoint/service.go:399-405 | The account's method and path keys become the union of the old ones and the items' |
| `Importing.ImportIsComplete` | internal/endpoint/service.go:363-427 | Both for a whole import: created + skipped is the list's length and the key set is the union |
| `Requested.ImportStores` | internal/endpoint/service.go:363-409 | An import stores exactly the items whose key is new and the first of its kind, each with its own fields and schemas, schemas that do not compile dropped |
| `Importing.ReimportChangesNothing` | internal/endpoint/service.go:357-359 | Importing the same list again creates nothing, skips all items and changes neither table |
| `Importing.FailedImportStillCounts` | internal/endpoint/service.go:368-417 | An import the database fails in the middle of changes nothing, but still reports every item before the failure as created or skipped |
| `Requests.ServeUpdateIsUpdateOp` | internal/endpoint/service.go:151-219 | The find, list and commit steps of an uninterrupted update have the answer and effect of the whole operation |
| `Requests.ServeRollbackIsRollbackOp` | internal/endpoint/service.go:225-270 | The same for a rollback |
| `Requests.ServeDeleteIsDeleteOp` | internal/endpoint/service.go:291-301 | The same for a deletion |
| `Requests.ServeRefinesOperation` | internal/endpoint/service.go:112-427 | Serving any request takes an idle, consistent state to an idle, consistent state with the operation's tables |
| `Provenance.RequestsAreTraced` | internal/endpoint/service.go:197-262 | In every run of non-overlapping requests each version's prompt and schema were produced together by one generation or one import item |
| `Provenance.SteadyRunsAreTraced` | internal/endpoint/service.go:197-211 | So they are under every interleaving in which no edit that keeps its prompt overtakes a prompt change |
| `Overtaking.ListForUpdateTracedIff` | internal/endpoint/service.go:192-201 | Where the latest schema was not produced for two prompts, listing for an edit leads to a traced state if and only if the latest version still has the prompt the edit keeps |
| `Overtaking.AlwaysTracedIffSteady` | internal/endpoint/service.go:151-219 | If that holds of the schemas listed by the edits of a run, every state of the run is traced if and only if no edit that keeps its prompt overtakes a prompt change |
| `Overtaking.StoredPairIff` | internal/endpoint/service.go:192-214 | Under the same condition, the version an edit's commit stores pairs a prompt with a schema produced for it if and only if that held when the edit listed, whatever ran until the commit |
| `Provenance.LateEditStores` | internal/endpoint/service.go:195-211 | What an edit that keeps its prompt stores after other commits: its own old prompt with the schema that is latest by then |
| `Overtaking.MixingRun` | internal/endpoint/service.go:151-219 | From the empty registry: when one edit finds the endpoint, another changes the prompt and commits, and the first goes on, the last version pairs the old prompt with the new prompt's schema |
| `Overtaking.MixingExample` | internal/endpoint/service.go:151-219 | Such a run with concrete requests |
| `Provenance.LoadedSchemaFitsPrompt` | cmd/server/main.go:83-92 | After any run of non-overlapping requests the schema loaded for an endpoint was produced for the prompt it has now |
| `ListCache.KeysInjective` | internal/cache/key.go:13-15 | Different upper-case methods have different cache keys |
| `ListCache.InvalidationCovers` | internal/endpoint/service.go:573-581 | A mutation changes the active list of no method outside those it invalidates |
| `ListCache.DroppedIsTouched` | internal/endpoint/service.go:575-581 | A list is dropped only if the request gave or took a version of an endpoint that has or had its method |
| `ListCache.ImportChangesOwnLists` | internal/endpoint/service.go:419-425 | An import changes no list but those of the methods it created endpoints for |
| `ListCache.CacheIsInvisible` | internal/router/cache.go:28-49 | After any sequence of mutations, reads and expiries, with arbitrary failures of Get and Set, a cached read of an upper-case method returns exactly the repository's list |
| `Spelling.RequestKeepsUpper` | internal/endpoint/service.go:114-262 | Every request leaves all stored methods, of endpoints and versions, in upper case |
| `Spelling.EventsKeepUpper` | internal/endpoint/service.go:573-581 | So does every run of requests, cached reads and expiries, which also keeps the cache in agreement |
| `Spelling.OtherSpellingKeepsAgreementIff` | internal/router/cache.go:29-48 | A cached read of a method not in upper case keeps the agreement if and only if the method in upper case has no active endpoints |
| `Spelling.LowerReadHidesEndpoint` | internal/router/cache.go:29-48 | From the empty registry: after an endpoint is created and read in lower case, the upper-case read misses it |
| `Spelling.LowerReadExample` | internal/router/cache.go:29-48 | Such a run with a concrete request |
| `Staleness.ReachKeepsConsistent` | internal/router/cache.go:31-48 | Under every interleaving of readers, writers, invalidations and time, each entry is a list the repository once had, with the times it was read and stored |
| `Staleness.HitIsRecent` | internal/router/cache.go:31-48 | A list served at time t was the repository's list at some moment later than t minus the time-to-live minus that entry's gap between read and Set, even if invalidations fail |
| `Staleness.NoTimeToLiveNoBound` | internal/cache/redis.go:52-61 | With a time-to-live of zero, after a write whose invalidation failed and any wait, the entry is still served though the repository last had its list before the whole wait |
| `Service.Repository.Create` | internal/endpoint/repository.go:78-86 | Inserts the row, or reports a conflict and changes nothing |
| `Service.Repository.Update` | internal/endpoint/repository.go:88-105 | Replaces the caller's own row, or reports not found or a conflict and changes nothing |
| `Service.Repository.Delete` | internal/endpoint/repository.go:107-124 | Removes the caller's own row and its versions, or reports not found and changes nothing |
| `Service.Repository.CreateVersion` | internal/endpoint/repository.go:168-173 | Appends the snapshot unless the endpoint is gone or has that number |
| `Service.CachedEndpointStore.ListActiveByMethod` | internal/router/cache.go:28-49 | Answers from the cache or the repository, passes a repository error on, and leaves the cache in the specified state, for every combination of failures |
| `Service.ScanVersions` | internal/endpoint/service.go:631-639 | The scan finds the first version with the number, or reports the invalid field |
| `Service.EndpointService.CommitEdit` | internal/endpoint/service.go:203-211 | Both statements of the transaction take effect, or neither |
| `Service.EndpointService.Create` | internal/endpoint/service.go:112-149 | Validation, insertion, first snapshot and invalidation, equal to the operation on tables |
| `Service.EndpointService.Update` | internal/endpoint/service.go:151-219 | Field by field assignment, the early return, the transaction and both invalidations, equal to the operation on tables |
| `Service.EndpointService.RollbackTo` | internal/endpoint/service.go:225-270 | The same for a rollback |
| `Service.EndpointService.Diff` | internal/endpoint/service.go:275-289 | The same for a diff, which changes nothing |
| `Service.EndpointService.Delete` | internal/endpoint/service.go:291-301 | The same for a deletion |
| `Service.EndpointService.ImportItems` | internal/endpoint/service.go:367-417 | The transaction's loop equals importing the items one after the other; on a failure in the middle the rows already written are undone and the counts so far returned |
| `Service.EndpointService.Import` | internal/endpoint/service.go:363-427 | The whole import, its counts beside an error included, with its invalidations in any order of methods |
| `Merge.MergeInPlace` | internal/generator/stateful.go:274-285 | The range loop gives the same tree for every order of the patch's keys |
| `SharedMerge.Memory.MergeObjects` | internal/generator/stateful.go:272-285 | The same on maps in memory that share their members: the destination's maps end up holding the merge, the patch's maps and all others are not written |
| `SharedMerge.MergedDecodes` | internal/generator/stateful.go:272-285 | What the destination's maps then hold decodes to the merge of the two decoded values |
| `Merge.AgreesWithMergePatchIff` | internal/generator/stateful.go:272-285 | The merge equals MergePatch of section 2 of RFC 7396 on exactly the patches without a null member, whatever the target |
| `Merge.NullMemberDiffers` | internal/generator/stateful.go:282 | A patch with a null member that the merge stores and the standard removes |
| `Merge.Idempotent` | internal/generator/stateful.go:272-285 | Merging the same patch twice changes nothing more |
| `Merge.OverwritesIff` | internal/generator/stateful.go:272-285 | Merging q into t gives q itself if and only if q covers all t holds |
| `Merge.SequenceIsMergedPatchIff` | internal/generator/stateful.go:272-285 | Two patches in sequence equal the one merged patch if and only if nothing of the target shows through a place the first patch overwrote with a non-object |
| `Merge.SequenceDiffers` | internal/generator/stateful.go:272-285 | A target and two patches for which they differ |
| `Stateful.EnsureId` | internal/generator/stateful.go:261-270 | Afterwards the id member stands for the given id, and no other member changed |
| `Stateful.Draft` | internal/generator/stateful.go:94-106 | A POST's resource answers to the id it is stored under, taken from the path, else from the generated body, else fresh; all other members are the generated ones |
| `Stateful.Replacement` | internal/generator/stateful.go:149-161 | A PUT stores the body's members and keeps the id |
| `Stateful.Patched` | internal/generator/stateful.go:193-194 | A PATCH stores the merge and keeps the id |
| `Stateful.Store.Create` | internal/state/state.go:61-76 | Inserts unless the key is present |
| `Stateful.Store.Get` | internal/state/state.go:78-92 | Reads the row of exactly that account, collection and id |
| `Stateful.Store.Update` | internal/state/state.go:94-114 | Replaces a present row, reports an absent one |
| `Stateful.Store.Delete` | internal/state/state.go:116-131 | Removes the row and reports whether it was there |
| `Stateful.Generator.Post` | internal/generator/stateful.go:88-120 | Status and new rows of a POST; when the wrapped generator fails nothing is stored |
| `Stateful.Generator.Read` | internal/generator/stateful.go:122-135 | Status of a GET, which changes nothing |
| `Stateful.Generator.Put` | internal/generator/stateful.go:140-175 | Status and new rows of a PUT, with its four outcomes in the source's order |
| `Stateful.Generator.Patch` | internal/generator/stateful.go:179-204 | Status and new rows of a PATCH, through the in-place merge |
| `Stateful.Generator.Remove` | internal/generator/stateful.go:206-215 | Status and new rows of a DELETE |
| `Stateful.StepKeepsConsistent` | internal/generator/stateful.go:88-215 | Each store access keeps every stored and outstanding resource under its own id |
| `Stateful.IdsMatchKeys` | internal/generator/stateful.go:244-270 | Under every interleaving a stored resource's id equals the id it is keyed by |
| `Stateful.IdsMatchKeysFromEmpty` | internal/generator/stateful.go:244-270 | The same, spelled out, for every run from the empty store |
| `Stateful.AppearsOnlyByPost` | internal/state/state.go:94-114 | An absent key becomes present exactly by a POST's insert |
| `Stateful.DeletedStaysDeleted` | internal/generator/stateful.go:140-215 | After a DELETE the resource stays absent, whatever PUT and PATCH requests had read it before, until a POST stores it |
| `Stateful.OtherKeysUntouched` | migrations/000012_per_account_uniqueness.up.sql:10-11 | A step changes no row but that of its own account, collection and id |
| `Stateful.UninterruptedPutAndPatch` | internal/generator/stateful.go:140-204 | Get and Update directly after each other have the effect of the whole handler |
| `Stateful.RepeatedPatch` | internal/generator/stateful.go:179-204 | Repeating a PATCH leaves the store as the first one did |
| `Serving.Generate` | internal/generator/stateful.go:46-83 | The dispatch on the method, with the resource named by the pattern and the captured parameters |
| `Serving.NamedByLastParameter` | internal/generator/stateful.go:217-231 | A request names a resource exactly by a value of the parameter its endpoint's path ends in |
| `Serving.GetAnswersStored` | internal/generator/stateful.go:122-135 | A GET of a stored resource answers with it and changes nothing |
| `Serving.PutReplaces` | internal/generator/stateful.go:137-175 | A PUT of a stored resource leaves and answers the body under the resource's id; nothing else of what was stored is left |
| `Serving.PatchMerges` | internal/generator/stateful.go:177-204 | A PATCH keeps members the body does not name, takes the body's, and merges objects that are in both |
| `Serving.NoObjectIsRefused` | internal/generator/stateful.go:149-152 | A PUT or PATCH whose body is no object is refused and changes nothing |
| `Serving.DeleteRemoves` | internal/generator/stateful.go:206-215 | A DELETE removes the resource and nothing else |
| `Serving.PostStores` | internal/generator/stateful.go:85-120 | A POST stores the generated object once, under the path's id, else its own, else the fresh one |
| `Serving.OthersAreDelegated` | internal/generator/stateful.go:46-83 | Every other request is passed on to the wrapped generator |
| `Serving.ItemPathNamesResource` | internal/generator/stateful.go:216-231 | The item endpoint's pattern matches the collection's path followed by an id, and names the resource the collection stores under that id |
| `Serving.CreatedIsRead` | internal/generator/stateful.go:34-37 | What a POST to a collection created is what a GET of its item path returns |
| `Serving.EditedIsRead` | internal/generator/stateful.go:137-204 | A successful PUT or PATCH answers with what a GET then returns; a refused one changes nothing |
| `Serving.DeletedIsGone` | internal/generator/stateful.go:206-215 | After a DELETE every other method finds nothing at that path, and a POST whose generation succeeds creates the resource anew |
| `Filler.ArrayLength` | internal/generator/faker.go:271-283 | The computed length equals the specified one, truncation included |
| `Filler.ComposedOf` | internal/generator/faker.go:231-256 | The merge loop equals the specified overlay of keywords |
| `Filler.FillValue` | internal/generator/faker.go:68-117 | Whatever the random draws and the order of properties, the value is one of those specified as possible |
| `Fills.FillAtLimit` | internal/generator/faker.go:69-76 | The fill is null ten levels down and for what is no schema object |
| `Fills.FixedFillIff` | internal/generator/faker.go:81-86 | A constant is the fill; else one of the enumerated values is, and each can be |
| `Fills.ObjectFillIff` | internal/generator/faker.go:258-264 | A schema of type object, or with properties and no type, is filled with an object of exactly its properties |
| `Fills.ScalarFillIff` | internal/generator/faker.go:110-116 | A schema without type and properties is filled with a string; strings, booleans and null follow their types |
| `Fills.ArrayFillIff` | internal/generator/faker.go:271-283 | An array has minItems elements, or one, but no more than maxItems and no fewer than none |
| `Fills.IntegerFillIff` | internal/generator/faker.go:287-322 | An integer can be any between the truncated bounds, in whichever order they are, 1 and 1000 by default |
| `Fills.NumberFillIff` | internal/generator/faker.go:301-329 | A number can be any between the bounds, in whichever order they are, 0 and 100 by default |
| `Fills.FillHasType` | internal/generator/faker.go:88-116 | A fill under a named type has that type, whether or not the schema is fillable |
| `Fills.AllOfFillIff` | internal/generator/faker.go:231-247 | An allOf schema is filled as the overlay in which the last member with a keyword decides it |
| `Fills.ChoiceFillIff` | internal/generator/faker.go:248-254 | A schema with choices is filled as the first of oneOf, else the first of anyOf |
| `Fills.UncomposedFillIff` | internal/generator/faker.go:231-256 | Without a usable composition the three keywords are ignored |
| `Filler.FillIsValid` | internal/generator/faker.go:68-117 | Every possible value for a fillable schema is valid against it |
| `Filler.BadFill` | internal/generator/faker.go:68-117 | A supported schema that is not fillable has a possible value that is invalid |
| `Filler.FillsValidIff` | internal/generator/faker.go:258-329 | For schemas of the supported keywords, fillable is exactly: all possible values are valid |
| `Filler.ConformingIsFillable` | internal/generator/faker.go:17 | A schema that obeys the conditions on its keywords and is nested within the depth limit is fillable |
| `Filler.LimitMatters` | internal/generator/faker.go:69-71 | At the depth limit a conforming schema is filled with a null its type rejects |
| `Infer.InferJSONSchema` | internal/importer/postman.go:282-320 | The recursive inference equals the specified schema |
| `Infer.InferMembers` | internal/importer/postman.go:305-310 | The loop over an object's members gives the same properties for every order, and lists each key once |
| `Infer.SortedListingUnique` | internal/importer/postman.go:312-314 | Sorting makes the required list independent of the order of visiting keys |
| `Infer.FirstDifferenceDecides` | internal/importer/postman.go:313 | Keys are sorted by their first difference |
| `Infer.InferredIsConforming` | internal/importer/postman.go:282-320 | Every inferred schema is well-formed and obeys the conditions the filler needs |
| `Infer.FillOfInferredIsValid` | internal/importer/postman.go:278-281 | For every sample nested less than ten deep, whatever the filler returns for its schema is valid against it |
| `Infer.InferredAcceptsIff` | internal/importer/postman.go:282-320 | The schema of a sample accepts exactly the values of the sample's shape, described without mention of schemas |
| `Infer.SampleIsValid` | internal/importer/postman.go:278-281 | A sample whose arrays' elements infer to the same schema is valid against its own schema |
| `Infer.SampleIsValidIff` | internal/importer/postman.go:295-303 | A sample is valid against its own schema if and only if every array element has the shape of the first non-null one |
| `Infer.MixedSamples` | internal/importer/postman.go:295-303 | An integer before a fraction breaks that, a fraction before an integer does not |
| `Pipeline.Outcome` | internal/generator/ai.go:101-129 | At most two calls are made, and with a schema only an accepted reply is used |
| `Pipeline.GenerateWithRetry` | internal/generator/ai.go:84-130 | The bounded retry loop equals the specified outcome |
| `Pipeline.OutcomeOfTwo` | internal/generator/ai.go:101-129 | The first usable reply is used after one call, a second one after an unusable first; a failing provider is not asked again |
| `Pipeline.FakerGenerate` | internal/generator/faker.go:37-63 | A parsed schema is filled; a missing, blank, unparsable or unloadable one goes to the stub |
| `Pipeline.Generate` | internal/generator/ai.go:57-79 | At most two provider calls, and the provider's reply, the fill or the stub in the specified order |
| `Pipeline.ServesIff` | internal/generator/ai.go:57-79 | Exactly what may be served: a usable first reply, else a usable second one, and a fill or the stub only if there is neither |
| `Pipeline.ServedBodyIsValid` | internal/generator/ai.go:57-130 | Whatever the provider answers and the validator rejects, an endpoint whose schema is fillable is served a body valid against it |
| `Pipeline.UnfillableSchemaServedInvalid` | cmd/server/main.go:66-71 | For every other supported schema a silent provider can lead to an invalid body |
| `Refs.WriteRefines` | internal/importer/parse.go:224-226 | Writing a value of the same meaning into a slot of such a document changes the meaning of nothing in it and makes nothing harder to resolve |
| `Refs.ResolvedIsWritten` | internal/importer/parse.go:207-213 | Where no resolvable $ref is left, what is written out is the full unfolding |
| `Refs.RefersToIff` | internal/importer/parse.go:234-235 | A $ref names the entry behind either prefix, behind both in their order, or else the entry of its whole text |
| `Refs.RefStandsForEntry` | internal/importer/parse.go:233-240 | A $ref object stands for the table entry it names |
| `Refs.RefIsFollowed` | internal/importer/parse.go:233-240 | Resolving a $ref object is resolving the entry it names; a name that is no entry leaves everything alone |
| `Refs.RefIsWrittenAsEntry` | internal/importer/parse.go:200-240 | What is returned for a $ref object that fits the limit is written as the full unfolding of the entry it names |
| `Refs.Document.ResolveRefs` | internal/importer/parse.go:219-245 | On every document, cyclic ones included, the in-place recursion ends with a heap and result that the step-by-step description allows |
| `Refs.Document.ResolveElements` | internal/importer/parse.go:223-228 | So does the loop over an array, by index |
| `Refs.Document.ResolveMembers` | internal/importer/parse.go:241-244 | So does the loop over an object, in any order of keys |
| `Refs.ResolvingAchieves` | internal/importer/parse.go:219-245 | In an acyclic document none of whose $ref members stands for a text, resolving keeps every meaning; the result means the same, and nothing resolvable is left in it if its expansion fits the depth limit |
| `Refs.ResolvedAsFresh` | internal/importer/parse.go:200-205 | Resolving after any earlier resolutions writes what the document meant before all of them |
| `Refs.Document.ResolveAll` | internal/importer/parse.go:40-86 | The operations of a document are resolved in turn on the one shared heap |
| `Refs.InTurnRefines` | internal/importer/parse.go:215-218 | All these resolutions together leave the meaning of everything in the document unchanged |
| `Refs.AllWrittenAsFresh` | internal/importer/parse.go:40-86 | Each operation's schema that fits the limit is written as its full unfolding in the document as it was parsed, whatever was resolved before |
| `RefTexts.ObjectBecomesRef` | internal/importer/parse.go:233-243 | In every document, cyclic ones included: resolving an object whose $ref member leads through fewer $refs than the limit to a text makes it the $ref to that text |
| `RefTexts.ResolutionExists` | internal/importer/parse.go:219-245 | Every value of every document has a resolution |
| `RefTexts.RefsKeptIff` | internal/importer/parse.go:40-86 | Over all sequences of resolutions of every document: no node becomes a $ref or changes the one it is, if and only if no array or object under a $ref leads to a text |
| `RefTexts.GuardedIsTextFree` | internal/importer/parse.go:233-243 | For acyclic documents this condition is the one under which resolving keeps every meaning |
| `RefTexts.GuardedIffEachKeepsRefs` | internal/importer/parse.go:219-245 | Where every node fits the limit, the condition holds if and only if no single resolution makes or changes a $ref |
| `RefTexts.LimitStopsFollowing` | internal/importer/parse.go:219-222 | A value followed through one $ref more than the limit leaves is resolved to a $ref that could be followed further, and nothing is written |
| `RefTexts.TenAreFollowed` | internal/importer/parse.go:219-222 | The limit is ten: a text is reached through ten $refs and not through more |
| `RefTexts.TextUnderRefChangesMeaning` | internal/importer/parse.go:233-243 | A document in which a text stands under a $ref: every resolution of its object makes it a $ref to another schema and changes what it means |
| `Paths.SplitJoin` | internal/router/path.go:61-67 | Splitting undoes joining, for parts without slashes |
| `Paths.SplitPathOfJoin` | internal/router/path.go:61-67 | The router splits a path built from segments into those segments |
| `Paths.SplitPathIsLossless` | internal/router/path.go:61-67 | For every path, the segments hold no slash and joined are the path without the slashes at its ends |
| `Paths.MatchPath` | internal/router/path.go:12-30 | A match exists exactly if the lengths agree and every static segment is equal; the parameters are the captured ones |
| `Paths.CapturedIff` | internal/router/path.go:12-30 | The parameters captured are the pattern's, each with the value at the last segment of its name |
| `Paths.StaticSegments` | internal/router/path.go:69-77 | The loop counts the segments that are no parameters |
| `Paths.StaticsCount` | internal/router/path.go:69-77 | The score is the number of segments that do not begin with a colon |
| `Paths.BestMatch` | internal/router/path.go:35-59 | The choice is the earliest of the matching patterns with the most static segments, with its own parameters |
| `Paths.ChosenIffMatched` | internal/router/path.go:55-58 | A pattern is chosen if and only if one matches |
| `Paths.TemplateConverts` | internal/importer/parse.go:88-92 | Each whole-segment parameter of a template becomes a router parameter, and nothing else changes |
| `Paths.RoutePastParam` | internal/importer/parse.go:33 | Anywhere in a path, braces around a name make a parameter |
| `Paths.StrayBraceStays` | internal/importer/parse.go:90-92 | A brace that is not part of such a pair stays as it is |
| `Paths.FilledTemplateMatches` | internal/importer/parse.go:88-92 | Filling a template's distinctly named parameters with non-empty slash-free values gives a path the converted pattern matches, capturing exactly those values |
| `Paths.ItemSharesCollection` | internal/generator/stateful.go:216-231 | A collection's endpoint, the root included, and its items' endpoint derive the same collection, and the latter the parameter's name |
| `Paths.CleanSlashes` | internal/importer/postman.go:164-174 | The cleaning loops end and return nothing or a slash and exactly the non-empty pieces, joined by single slashes |
| `Paths.CleanedSplitsIntoPieces` | internal/router/path.go:61-67 | The router splits a cleaned path into exactly those pieces, in order |
| `Postman.PostmanPath` | internal/importer/postman.go:135-175 | The step-by-step conversion equals its specification, for string, array and missing paths |
| `Postman.ConvertPastVariable` | internal/importer/postman.go:65 | Anywhere in a path, double braces around a name make a parameter |
| `Postman.StrayCharacterStays` | internal/importer/postman.go:65 | Everything else stays as it is |
| `Postman.SpacedStringForm` | internal/importer/postman.go:135-175 | Spaces around a path given as a string do not matter |
| `Postman.PartVariableForm` | internal/importer/postman.go:199-209 | A first segment that only begins with a variable is no host and stays |
| `Postman.BareHostForm` | internal/importer/postman.go:177-187 | A whole URL without a path yields nothing |
| `Postman.StringForm` | internal/importer/postman.go:140-142 | A path given as a string with a leading slash yields its route, variables turned into parameters |
| `Postman.BareStringFormIff` | internal/importer/postman.go:140-142 | One without a leading slash does if and only if it does not begin with a variable that other segments follow |
| `Postman.WholeUrlForm` | internal/importer/postman.go:177-195 | So does a whole URL, for every scheme, host, query and fragment |
| `Postman.VariableHostForm` | internal/importer/postman.go:177-209 | A URL whose host is a variable yields its route if its query and fragment hold no other URL, and otherwise what that URL alone yields |
| `Postman.NestedUrlForm` | internal/importer/postman.go:177-195 | With another URL at the end of its query it yields that one's route, so its own if and only if the two are equal |
| `Postman.NestedUrlExample` | internal/importer/postman.go:177-195 | {{base}}/a?next=http://h/b yields the route of http://h/b |
| `Postman.SegmentsFormIff` | internal/importer/postman.go:143-150 | A path given as segments yields its route if and only if it does not begin with a variable that other segments follow; else that variable is lost |
| `Render.TokenizeIsLossless` | internal/generator/variables.go:28-47 | Taking a prompt apart into text and placeholders loses nothing |
| `Render.TokensAreMinimal` | internal/generator/variables.go:30-38 | No placeholder holds a closing pair, and no text before one an opening pair |
| `Render.HoleIsFound` | internal/generator/variables.go:28-47 | Text, a placeholder and a rest are found again exactly as they were put together |
| `Render.RenderAll` | internal/generator/variables.go:28-47 | The loop replaces each placeholder once and never scans what it inserted |
| `Variables.CollectBodyVars` | internal/generator/variables.go:96-117 | The walk records, for each name it meets, the text of a place with that name, in any order of keys |
| `Variables.ExtractVariables` | internal/generator/variables.go:51-71 | All sources together record exactly what the request offers |
| `Variables.RenderVariables` | internal/generator/variables.go:22-48 | A prompt is rendered with variables the request offers, or left alone without a request |
| `Variables.EntryComesFromWalk` | internal/generator/variables.go:96-117 | Every recorded name comes from walking the body to a non-object |
| `Variables.NamesAreInjective` | internal/generator/variables.go:98-104 | Two places of a body with plain keys never share a name |
| `Variables.BodyVariableIff` | internal/generator/variables.go:66-117 | Whatever order the keys are visited in, the variable named by a path holds the text of the value found along it, if and only if the path has a name and no other place of the body with that name has another text |
| `Variables.PlainKeysGiveOneText` | internal/generator/variables.go:98-104 | Keys that are non-empty, trimmed, without dots and distinct in lower case are enough for that |
| `Variables.BodyPlaceholderRendersIff` | internal/generator/variables.go:22-71 | {{body.a.b}} always renders the value found by walking the body along a and b if and only if no place with the same name has another text, for paths that do not begin with an empty key, end in no space and hold no pair of closing braces |
| `Variables.SourceVariableIff` | internal/generator/variables.go:54-62 | A path parameter, query parameter or header is always what its variable holds if and only if no other spelling of the name has another value |
| `Variables.SourcePlaceholderIff` | internal/generator/variables.go:22-62 | {{path.x}}, {{query.x}} and {{headers.x}} then render it, and only then always |
| `Variables.CommaJoins` | internal/generator/variables.go:60-62 | A repeated header's values are joined by commas, in their order |
| `Variables.CookiePlaceholder` | internal/generator/variables.go:63-65 | {{cookies.x}} renders the last cookie of that name |
| `Variables.LooseNames` | internal/generator/variables.go:38-45 | Spaces inside the braces and case do not matter, and a name without a value renders as nothing |
| `Variables.ScalarIsShown` | internal/generator/variables.go:121-134 | A text is rendered as it is, a boolean as true or false, null as nothing |
| `Variables.CollidingKeys` | internal/generator/variables.go:98-104 | Two keys that differ only in case share one name, and either value may end up under it |

## Left out

- Handlers, middleware, the dashboard, configuration, logging, authentication, error simulation, the AI client and its prompt texts: I/O, or easy members.
- Timestamps, request history and statistics of the registry: easy members.
- The two separate reads inside the version listing, `Diff` and `List`: each is one atomic read here.
- The validator: whether a schema compiles and whether it accepts a document are inputs, the latter assumed sound where a theorem needs it.
- `allOf`, `oneOf` and `anyOf` in the validity theorems: the overlay of keywords is modelled, but it overwrites keywords and does not preserve validity.
- `pattern`, `format`, `uniqueItems` and lengths of strings: outside the supported keywords; filled strings are arbitrary.
- Floating-point rounding, 64-bit overflow, number formatting and the JSON encoder: numbers are reals, and formatting is a parameter.
- Unicode case folding and white space beyond ASCII and two Latin-1 characters.
- A literal `null` as a JSON object body, which the decoder accepts as an empty map: bodies are objects or not objects.
- What cyclic `$ref` tables mean: resolving them is modelled, ends, and keeps or makes `$ref`s as `RefTexts.RefsKeptIff` says, but `Acyclic` excludes them from the theorems about meaning, as writing in place makes a cyclic value there.
- What an unresolvable `$ref` object holds beside its reference: the written tree records the reference only.
- Refs.ResolvingAchieves: says nothing about what is left of an expansion that exceeds the depth limit, because sharing can make such a value resolve further than its own depth allows; for a bare chain of `$ref`s `RefTexts.LimitStopsFollowing` says it.
- Merge.MergeInPlace: works on values; `SharedMerge.Memory.MergeObjects` is the same loop on shared maps. The request handlers use the former, as each request decodes its own maps.
- Provenance.SteadyRunsAreTraced: a sufficient condition; its converse, `Overtaking.AlwaysTracedIffSteady`, needs that no schema an edit carries over was produced for two prompts, as the mixed pair could otherwise coincide with a produced one.
- Provenance.RequestsAreTraced: only for requests that do not overlap; `Overtaking.MixingRun` shows the statement is false otherwise.
- ListCache.CacheIsInvisible: assumes invalidations succeed; `Staleness.HitIsRecent` covers failing ones.
- Two adjacent steps of different requests inside one database statement: every repository call is atomic.
- Variables.ExtractVariables: the cookies arrive parsed, as cookie parsing is left to the standard library.
