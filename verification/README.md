# Mercer core, modelled and verified in Dafny

A Dafny 4.11 model of the parts of Mercer, a retrieval-augmented campaign assistant, that carry hard
invariants. `dafny verify dfyconfig.toml` checks all of it.

## What is modelled

**The versioned campaign state** (`CampaignState*.dfy`). Campaigns, field configurations, numbered
versions and their value and item rows form one store. Its calls are the initial state, patches, field
creation, update, deletion and reordering, and the acceptance of a stored proposal. Each is a pure step
(`CampaignStateSteps`) and a method of the class `Database` (`CampaignStateService`), which works on
the tables and dictionaries as the services do and is proved to take exactly that step. An invariant
over every step and theorems about whole runs follow: versions are 1..n, history is frozen, no update
is lost, references and keys hold.

**The semantic chunker** (`SemanticChunker*.dfy`): sentence splitting, the break array, the two merge
guards and the bounded soft split, against any embedding answer.

**The agent loop** (`AgentLoop*.dfy`): rounds, streamed tool calls, message history, duplicate
suppression and events, against any provider and any host.

**The vector store and its client** (`VectorStore*.dfy`, `StorageClient.dfy`): the class `LanceDBStore`
with its dimension cache, shown to refine a map per vault over all calls and restarts, and the retrying
client, alone against any server and composed with the store.

**Token budgets** (`Drift*.dfy`, `StateCompiler.dfy`): binary search for a fitting prefix, newest lines
that fit, the running summary with what each completion is sent, and the first-fit compilation of the
state block.

**Order and layout** (`PdfBatches.dfy`, `Preprocessing*.dfy`, `FileBatches*.dfy`): page batches and
their merge in any completion order, the layout steps of preprocessing, and the grouping of accepted
file changes with the validators of the apply request.

Each component has its model, with the loops of the source proved against it, and theorems about the
model that do not name its functions' bodies: when a call commits and what it leaves
(`CampaignStateAcceptance`, `CampaignStateOutcomes`, `CampaignStateStored`, `VectorStoreOutcomes`), what
the chunks, replies, events and requests are (`SemanticChunkerChunks`, `AgentLoopReplies`,
`AgentLoopEvents`, `StorageClientRequests`), and what the layout makes of a text (`PreprocessingShape`).

`Wrappers`, `Text`, `Seqs` and `Sorting` hold what these share: options and results, white space and
numerals as Python sees them, sequence folds, and a stable sort.

## Assumptions

Embeddings, tokenizers, language models, tool results, lower-casing, JSON parsing and database
identifiers are arbitrary functions or parameters. A service call is one atomic step, since it holds the
campaign row lock to its commit. The PDF setting for the number of workers is positive. The theorems
about runs of the vector store speak of vaults whose table names differ; `IsolatedWhen` says what happens
otherwise.

## Where code and documentation disagree

The model follows the code.

- Deleting a field is documented to leave past versions alone. The then-latest version loses the field's
  rows, the new version is empty, and a field that any superseded version mentions cannot be deleted.
- The comment in the proposal normaliser promises the first valid entry of a field; the first entry counts,
  valid or not, and an entry that raises leaves nothing.
- When suggestions are accepted with a proposal, the client's config version is compared with the stored
  proposal only, so a configuration change since then goes unnoticed.
- An unknown tool is commented to stop the loop; it ends the calls of its round only.
- The storage client's final error details name positions within its last retry.
- The state compiler's budget does not count the separators between fields, and resolved items are
  rendered with `[x]`, not the documented check mark.
- The examples at the batch splitter predate its minimum batch size: ten pages make batches 1-8 and 9-10.
- The budgeted model call is documented to guarantee a fit; its last resort appends uncounted markers and
  does not fit.
- The running summary promises to account for the previous summary, but the room it gives messages leaves
  out the instructions, the headings and the newlines. The call it then makes drops lines from the front,
  so the previous summary, and then the older messages of a chunk, may be sent to no completion.
- Stored vectors are meant to have one dimension; a vault that holds empty vectors learns another after a
  restart.
- The marker characters of preprocessing are said not to survive it; they are only logged, and a marker in
  the text is turned into a paragraph break.
- The short-block guard is documented to join a short first block to the next; it leaves it
  (`FirstBlockStaysShortWhen`).

## Model

| member | source | states |
|---|---|---|
| `CampaignState.ItemKeyInjective` | rag-backend/app/services/campaign_state_value_service.py:427-430 | item keys of one field differ exactly when their numbers do, zero padding included |
| `CampaignState.NextIndex` | rag-backend/app/services/campaign_state_value_service.py:425-431 | the search for a free item key ends within as many steps as there are keys, at the first free number |
| `CampaignState.NextItemKey` | rag-backend/app/services/campaign_state_value_service.py:419-431 | the search loop terminates and returns that first free key |
| `CampaignStateInitial.NextNumberedKey` | rag-backend/app/services/campaign_state_value_service.py:472-476 | with the keys 1..n taken, the key handed out next is n+1, so the items of an initial list are numbered 1, 2, 3, ... |
| `CampaignStateInitial.BuildInitialStateRows` | rag-backend/app/services/campaign_state_value_service.py:434-488 | the loop builds exactly the rows of the enabled, proposed fields that have a value of their mode |
| `CampaignStateInitial.NumberList` | rag-backend/app/services/campaign_state_value_service.py:472-486 | the loop that hands out item keys numbers the items in order |
| `CampaignStateInitial.DedupValues` | rag-backend/app/services/campaign_state_value_service.py:908-912 | the pass over value rows keeps the last row of each field |
| `CampaignStateInitial.DedupItems` | rag-backend/app/services/campaign_state_value_service.py:931-938 | the pass over item rows keeps the first row of each (field, item key) |
| `CampaignStatePatchTheorems.PatchIsPerField` | rag-backend/app/services/campaign_state_value_service.py:674-712 | what a patch leaves in a field is the fold of the operations on that field alone, for every base and operation list |
| `CampaignStatePatchTheorems.PatchOrderAcrossFields` | rag-backend/app/services/campaign_state_value_service.py:674-712 | two patches whose operations agree field by field leave the same rows, however they are interleaved |
| `CampaignStatePatchTheorems.UnnamedFieldsCarried` | rag-backend/app/services/campaign_state_value_service.py:651-670 | fields that no operation names are carried over unchanged |
| `CampaignStatePatchTheorems.AddedItemIsNew` | rag-backend/app/services/campaign_state_value_service.py:681-695 | an added item gets a key no item of the field has, the first free after those counted, so nothing is overwritten |
| `CampaignStatePatchTheorems.NamedItemOps` | rag-backend/app/services/campaign_state_value_service.py:696-711 | update, resolve and remove change the named item only, its text, mark and references as asked, and nothing when an earlier operation of the same patch removed it |
| `CampaignStatePatchTheorems.SingleOps` | rag-backend/app/services/campaign_state_value_service.py:674-680 | replacing sets text and references of the value, clearing removes it, and neither touches items |
| `CampaignStateAcceptance.MatchesWhen` | rag-backend/app/services/campaign_state_value_service.py:128-130 | the reference pattern matches exactly the three kinds of references, before at most one newline |
| `CampaignStateAcceptance.PatchCommitsWhen` | rag-backend/app/services/campaign_state_value_service.py:361-416 | a patch commits exactly when campaign, both versions and id are right and every operation has a proper reason, references and text, names a field of its mode, and names an item the base holds |
| `CampaignStateAcceptance.PatchAnswers` | rag-backend/app/services/campaign_state_value_service.py:361-416 | otherwise the answer is the first thing wrong: an error of the versions, or the index and code of the first operation that fails |
| `CampaignStateAcceptance.PatchRecords` | rag-backend/app/services/campaign_state_value_service.py:580-647 | a committed patch adds one version with the next number, its base, author and configuration, and answers with the operation types in order |
| `CampaignStateAcceptance.PatchLeaves` | rag-backend/app/services/campaign_state_value_service.py:599-712 | each field of the new version holds what it held before after the operations that name it, in order |
| `CampaignStateProposals.NormalizeExistingFields` | rag-backend/app/services/campaign_state_initial_service.py:472-571 | the loop returns or raises as its specification says, which keeps a list field without items |
| `CampaignStateProposals.NormalizeItems` | rag-backend/app/services/campaign_state_initial_service.py:554-569 | the loop over the items of a list drops what is no item and raises at references that cannot be iterated over |
| `CampaignStateProposals.ReadEntry` | rag-backend/app/services/campaign_state_initial_service.py:507-571 | one turn of the loop keeps, drops or raises as specified, for each mode and status |
| `CampaignStateProposals.RaisesWhen` | rag-backend/app/services/campaign_state_initial_service.py:472-571 | the normaliser raises exactly when some entry, the first of its field, is malformed |
| `CampaignStateProposals.MalformedWhen` | rag-backend/app/services/campaign_state_initial_service.py:529-569 | an entry is malformed exactly when it is proposed in the mode of its field with a list value that is neither empty nor a dictionary, or with references, of its value or of an item, that are neither empty nor to be iterated over |
| `CampaignStateProposals.EntrySays` | rag-backend/app/services/campaign_state_initial_service.py:504-571 | what a kept entry says: mode and status as proposed, the text and filtered references of its value or items |
| `CampaignStateProposals.NormalizedUnique` | rag-backend/app/services/campaign_state_initial_service.py:472-571 | a normalised proposal has at most one entry for each field |
| `CampaignStateProposals.KeptIsFirstEntry` | rag-backend/app/services/campaign_state_initial_service.py:472-571 | what is kept for a field is its first entry, and only if that one is valid and no entry of the answer raises |
| `CampaignStateProposals.FirstValidKeptWhen` | rag-backend/app/services/campaign_state_initial_service.py:472-571 | the first valid entry of a field is kept, as the comment there promises, exactly when no entry of the answer raises and no invalid entry of the field precedes it |
| `CampaignStateProposals.FirstValidMayBeDropped` | rag-backend/app/services/campaign_state_initial_service.py:487-550 | a valid entry kept alone, but not after an invalid one of its field, nor beside one that raises |
| `CampaignStateProposals.UnifyProposal` | rag-backend/app/services/campaign_state_initial_service.py:1376-1445 | the loops put the accepted suggestions first and then the other fields, each key once |
| `CampaignStateProposals.MergeOverrides` | rag-backend/app/services/campaign_state_initial_service.py:1448-1502 | the loop replaces overridden fields in place and ignores unknown keys |
| `CampaignStateProposals.EffectiveProposalUnique` | rag-backend/app/services/campaign_state_initial_service.py:1376-1502 | whatever is stored, accepted and overridden, no key occurs twice in the effective proposal |
| `CampaignStateProposals.DedupDropsNothing` | rag-backend/app/services/campaign_state_value_service.py:903-938 | both dedup passes of the initial state have nothing to drop: the rows that reach them are unique already |
| `CampaignStateInvariants.AcceptedRowsAreUnique` | rag-backend/app/services/campaign_state_value_service.py:903-938 | the same in every store that meets the constraints, for the fields as they are when a proposal is accepted |
| `CampaignStateStored.StoresWhen` | rag-backend/app/services/campaign_state_value_service.py:434-488 | the values and items stored for a proposal are exactly those it proposes for enabled fields of their mode, items open and numbered from 1 |
| `CampaignStateStored.InitialCommitsWhen` | rag-backend/app/services/campaign_state_value_service.py:814-880 | the initial state commits exactly on the current configuration, before any version, when every document found has the recorded checksum |
| `CampaignStateStored.InitialStores` | rag-backend/app/services/campaign_state_value_service.py:814-945 | it adds version 1, which holds what the proposal gives |
| `CampaignStateStored.UnifiedWhen` | rag-backend/app/services/campaign_state_initial_service.py:1376-1445 | a field of the union is the first accepted suggestion of its key, or without one the first stored field |
| `CampaignStateStored.MergedWhen` | rag-backend/app/services/campaign_state_initial_service.py:1448-1502 | a field with an override takes mode and status of the first one, and its value where it brings one; the others stay |
| `CampaignStateStored.AcceptCommitsWhen` | rag-backend/app/services/campaign_state_initial_service.py:1121-1314 | a proposal is accepted exactly when it is current, each accepted suggestion can be created, and the initial state can |
| `CampaignStateStored.AcceptAdds` | rag-backend/app/services/campaign_state_initial_service.py:1121-1314 | it then adds each accepted suggestion as an enabled field above the others in the order, and version 1 |
| `CampaignStateStored.AcceptStores` | rag-backend/app/services/campaign_state_initial_service.py:1121-1314 | that version holds exactly what the effective proposal gives to the fields of then |
| `CampaignStateInvariants.NewVersionKeepsInv` | rag-backend/app/services/campaign_state_value_service.py:630-647 | a version numbered after the latest, on the current configuration, with rows of live fields of the right mode, keeps the store invariant |
| `CampaignStateInvariants.CascadeKeepsInv` | rag-backend/app/services/campaign_state_service.py:419-470 | purging the deleted field from the latest version, appending an empty version and dropping the field keeps it too, thanks to the RESTRICT constraint |
| `CampaignStateInvariants.ConfigLockWhenAccepting` | rag-backend/app/services/campaign_state_initial_service.py:1238-1300 | the optimistic lock on the configuration when a proposal is accepted: it rejects an outdated client when no suggestion is accepted, and looks only at the stored proposal otherwise |
| `CampaignStateInvariants.OutdatedConfigMayCommit` | rag-backend/app/services/campaign_state_initial_service.py:1238-1300 | in every campaign without a version, a client with any outdated config version commits by accepting one suggestion |
| `CampaignStateRuns.NextKeepsInv` | rag-backend/app/db/models.py:470-482 | every call of every kind keeps the invariant: rows refer to live fields of the right mode and are unique, versions have no gap or repetition, recorded config versions are in order and never ahead |
| `CampaignStateRuns.RejectedChangesNothing` | rag-backend/app/services/campaign_state_value_service.py:361-416 | a rejected call leaves the whole store unchanged |
| `CampaignStateRuns.OtherCampaignsUntouched` | rag-backend/app/services/campaign_state_value_service.py:154-165 | nothing a call does is seen by another campaign |
| `CampaignStateRuns.VersionsPersist` | rag-backend/app/services/campaign_state_service.py:419-446 | a version is never removed or renumbered; its rows change only when a field is deleted while it is the latest, and then only that field's rows go |
| `CampaignStateRuns.HistoryIsFrozen` | rag-backend/app/services/campaign_state_service.py:367-368 | once a version has a successor, no run of calls changes it |
| `CampaignStateRuns.PinnedField` | rag-backend/app/db/models.py:477-482 | a field mentioned by a superseded version can never be deleted again, whatever is called, and keeps campaign, key and mode |
| `CampaignStateRuns.VersionsAreOneToN` | rag-backend/app/services/campaign_state_value_service.py:580-639 | in every reachable store a campaign's versions are exactly 1..n, one row each, each based on the one before |
| `CampaignStateRuns.PatchAdvances` | rag-backend/app/services/campaign_state_value_service.py:591-639 | a committed patch was based on the latest version and becomes the next one |
| `CampaignStateRuns.NoLostUpdate` | rag-backend/app/services/campaign_state_value_service.py:591-596 | of two patches that commit in one run the later is based on a later version |
| `CampaignStateRuns.ConfigVersionCounts` | rag-backend/app/services/campaign_state_service.py:160-165 | the config version counts the committed configuration changes one by one |
| `CampaignStateRuns.DeleteCommitsWhen` | rag-backend/app/services/campaign_state_service.py:342-471 | deleting a field commits exactly when no superseded version holds a row of it |
| `CampaignStateRuns.DeleteMayBeRefused` | rag-backend/app/services/campaign_state_service.py:342-471 | a run that creates a field, sets it and clears it: the latest version does not use it, and its deletion is refused |
| `CampaignStateOutcomes.DeleteRemoves` | rag-backend/app/services/campaign_state_service.py:342-471 | a committed deletion removes the field and no other, leaves no row of it in any version, and keeps the rows of other fields |
| `CampaignStateOutcomes.DeleteRecords` | rag-backend/app/services/campaign_state_service.py:419-446 | when there is a version it adds the next, empty, on the configuration of before |
| `CampaignStateOutcomes.CreateCommitsWhen` | rag-backend/app/services/campaign_state_service.py:220-283 | a field is created exactly under a proper key that is free in the campaign, with a description of at most 8192 bytes |
| `CampaignStateOutcomes.CreateAdds` | rag-backend/app/services/campaign_state_service.py:220-283 | the new field is what was sent, beside those of before |
| `CampaignStateOutcomes.UpdateCommitsWhen` | rag-backend/app/services/campaign_state_service.py:287-338 | an update commits exactly when it sends neither key nor mode, no null, and values within their bounds |
| `CampaignStateOutcomes.UpdateSets` | rag-backend/app/services/campaign_state_service.py:287-338 | what is sent replaces what was there, the rest stays, and the configuration moves on unless nothing was sent |
| `CampaignStateOutcomes.ReorderCommitsWhen` | rag-backend/app/services/campaign_state_service.py:483-553 | a reorder commits exactly when the ids are those of the fields of the campaign, each once |
| `CampaignStateOutcomes.ReorderSets` | rag-backend/app/services/campaign_state_service.py:483-553 | each field gets its position as its order and keeps everything else |
| `CampaignStateRuns.DeleteEmptiesActiveState` | rag-backend/app/services/campaign_state_service.py:432-446 | deleting any field of a campaign with state leaves the active state empty |
| `CampaignStateRuns.ReorderLists` | rag-backend/app/services/campaign_state_service.py:483-553 | after a reorder the fields are listed in exactly the order requested |
| `CampaignStateService.Database.constructor` | rag-backend/app/services/campaign_state_value_service.py:496-498 | a new database has the given campaigns and no fields, versions or rows |
| `CampaignStateService.Database.ApplyPatch` | rag-backend/app/services/campaign_state_value_service.py:560-810 | the in-place algorithm over dictionaries refines the pure patch step, response and rejection included |
| `CampaignStateService.Database.ApplyInitial` | rag-backend/app/services/campaign_state_value_service.py:814-945 | the first version is built as the pure initial step says, or the call is rejected for the same reason |
| `CampaignStateService.Database.AcceptProposal` | rag-backend/app/services/campaign_state_initial_service.py:1121-1314 | accepting a proposal creates the fields and the first version in one step, or nothing |
| `CampaignStateService.Database.CreateField` | rag-backend/app/services/campaign_state_service.py:220-283 | creating a field is the pure step, duplicates and invalid payloads rejected |
| `CampaignStateService.Database.UpdateField` | rag-backend/app/services/campaign_state_service.py:287-338 | updating a field is the pure step; key and mode stay |
| `CampaignStateService.Database.DeleteField` | rag-backend/app/services/campaign_state_service.py:342-471 | deleting a field is the pure step: purge, empty successor, removal, or abort |
| `CampaignStateService.Database.ReorderFields` | rag-backend/app/services/campaign_state_service.py:483-553 | reordering fields is the pure step |
| `CampaignStateService.ValidatePatch` | rag-backend/app/services/campaign_state_value_service.py:361-416 | the loop reports the first rejected operation, judged against the base snapshot |
| `CampaignStateService.ApplyOperations` | rag-backend/app/services/campaign_state_value_service.py:674-712 | the loop over the operations on the dictionaries computes the pure fold |
| `CampaignStateService.LoadItems` | rag-backend/app/services/campaign_state_value_service.py:615-617 | grouping the item rows of a version by field loses and mixes up none |
| `CampaignStateService.InsertValues` | rag-backend/app/services/campaign_state_value_service.py:744-745 | row-by-row insertion succeeds exactly when no row violates a key or reference |
| `CampaignStateService.InsertItems` | rag-backend/app/services/campaign_state_value_service.py:766-767 | the same for item rows: it succeeds exactly when no (field, item key) repeats and every field exists |
| `SemanticChunker.SplitParagraph` | rag-indexer/parser/semantic_chunker.py:85-98 | the loop over a paragraph yields its sentences |
| `SemanticChunker.SplitSegment` | rag-indexer/parser/semantic_chunker.py:74-98 | the loop over a segment yields its headings and sentences |
| `SemanticChunker.SplitSentences` | rag-indexer/parser/semantic_chunker.py:56-100 | the loops yield the sentences of the text |
| `SemanticChunker.LastSentenceEnd` | rag-indexer/parser/semantic_chunker.py:132-136 | the search over the matches finds the last sentence end in the window, the window's own end counting as an end |
| `SemanticChunker.NextCut` | rag-indexer/parser/semantic_chunker.py:129-144 | one turn of the loop finds the cut its specification names |
| `SemanticChunker.SoftSplit` | rag-indexer/parser/semantic_chunker.py:113-151 | the loop terminates, also when the last space is at position 0, and returns the specified pieces |
| `SemanticChunker.ApplyHeadingGuard` | rag-indexer/parser/semantic_chunker.py:284-312 | the in-place merge by headings computes its fold |
| `SemanticChunker.ApplyMinGuard` | rag-indexer/parser/semantic_chunker.py:315-336 | the in-place merge of short blocks computes its fold |
| `SemanticChunker.MarkBreaks` | rag-indexer/parser/semantic_chunker.py:222-231 | the break array is set exactly where the distance exceeds the threshold or a heading follows |
| `SemanticChunker.CollectBlocks` | rag-indexer/parser/semantic_chunker.py:233-242 | the loop cuts the sentences after every break |
| `SemanticChunker.BlockTexts` | rag-indexer/parser/semantic_chunker.py:254-259 | the loop joins the blocks to texts |
| `SemanticChunker.SplitLong` | rag-indexer/parser/semantic_chunker.py:261-273 | the loop splits the texts that are too long and drops blanks |
| `SemanticChunker.Split` | rag-indexer/parser/semantic_chunker.py:174-281 | the whole pipeline returns the specified chunks |
| `SemanticChunkerTheorems.SentencesConserve` | rag-indexer/parser/semantic_chunker.py:56-100 | sentence splitting loses only white space; every sentence is stripped and not empty |
| `SemanticChunkerTheorems.SoftPiecesFacts` | rag-indexer/parser/semantic_chunker.py:113-151 | the pieces fit, keep the ink in order, and of a clean text are clean |
| `SemanticChunkerTheorems.WordsAreCutOnlyWhen` | rag-indexer/parser/semantic_chunker.py:131-144 | a cut goes through a word only when the window ends on a punctuation mark or the first characters hold no space |
| `SemanticChunkerTheorems.SectionPartitionUnique` | rag-indexer/parser/semantic_chunker.py:284-312 | the partition of sentences at heading positions is unique |
| `SemanticChunkerTheorems.BlocksAreSections` | rag-indexer/parser/semantic_chunker.py:205-250 | with headings the blocks are exactly that partition, for every embedding answer and threshold |
| `SemanticChunkerTheorems.HeadingsDecide` | rag-indexer/parser/semantic_chunker.py:244-250 | a text with a heading is chunked the same way for every embedding answer and every threshold |
| `SemanticChunkerTheorems.BlocksAreLongEnough` | rag-indexer/parser/semantic_chunker.py:315-336 | without headings the sentences keep their order and every block but the first has at least two |
| `SemanticChunkerTheorems.RawBlocksStart` | rag-indexer/parser/semantic_chunker.py:233-242 | the raw blocks start at 0 and after every break, and nowhere else |
| `SemanticChunkerTheorems.MinGuardStarts` | rag-indexer/parser/semantic_chunker.py:327-332 | the guard keeps the start of a block exactly when the block is long enough or the first |
| `SemanticChunkerTheorems.BlocksStartWhere` | rag-indexer/parser/semantic_chunker.py:222-252 | without headings a block starts at a sentence exactly when it is the first, or a boundary lies before it, none right after it, and it is not the last |
| `SemanticChunkerTheorems.FirstBlockStaysShortWhen` | rag-indexer/parser/semantic_chunker.py:315-336 | without headings a short first block stays unjoined exactly when there is a boundary after the first sentence, none after the second, and a third sentence |
| `SemanticChunkerTheorems.FirstBlockMayStayShort` | rag-indexer/parser/semantic_chunker.py:315-336 | three sentences whose first stays a block alone |
| `SemanticChunkerTheorems.SplitConserves` | rag-indexer/parser/semantic_chunker.py:174-281 | for every text and embedding answer the chunks are not blank, at most MAX_CHUNK_CHARS long, and hold exactly the ink of the text in order |
| `SemanticChunkerChunks.ChunksFollowBlocks` | rag-indexer/parser/semantic_chunker.py:174-281 | for every text and embedding answer the chunks are those of blocks of sentences, in order, that start where they should: at the headings, or after the boundaries that are not alone; a block that is short enough is one chunk, its sentences joined by spaces, another is cut to size |
| `SemanticChunkerChunks.CutWhere` | rag-indexer/parser/semantic_chunker.py:128-144 | a long text is cut after the last sentence end between 700 and 1300, else before the last space among the first 1500 characters, else after these |
| `SemanticChunkerChunks.TextIsCut` | rag-indexer/parser/semantic_chunker.py:56-100 | the sentences of a text are those of its segments, cut out at the heading lines from left to right |
| `SemanticChunkerChunks.HeadingLineWhen` | rag-indexer/parser/semantic_chunker.py:47 | where a heading line begins and ends, white space after its marks included |
| `SemanticChunkerChunks.SegmentIsCut` | rag-indexer/parser/semantic_chunker.py:74-98 | a segment is a heading on one line or cut at its blank lines |
| `SemanticChunkerChunks.ParagraphIsCut` | rag-indexer/parser/semantic_chunker.py:85-98 | a paragraph is cut at its sentence separators, the pieces stripped and the empty ones dropped |
| `SemanticChunkerChunks.SentenceGapWhen` | rag-indexer/parser/semantic_chunker.py:39-41 | what separates two sentences |
| `AgentLoop.SortedKeys` | rag-backend/app/services/agent_loop.py:1053 | the sorted keys of the delta table are its keys, strictly increasing |
| `AgentLoop.ReadStream` | rag-backend/app/services/agent_loop.py:998-1035 | the loop over the stream collects the content, the token events and the slots |
| `AgentLoop.Materialise` | rag-backend/app/services/agent_loop.py:1051-1075 | the loop over the sorted slots collects the complete calls |
| `AgentLoop.ExecuteCalls` | rag-backend/app/services/agent_loop.py:1112-1414 | the loop over the calls executes them in order up to the first unknown tool |
| `AgentLoop.RunStream` | rag-backend/app/services/agent_loop.py:866-1448 | the loop over the rounds computes the specified run |
| `AgentLoopTheorems.SlotMeaning` | rag-backend/app/services/agent_loop.py:1017-1035 | a slot holds the last id and name and the joined arguments of its own index |
| `AgentLoopTheorems.CallsMeaning` | rag-backend/app/services/agent_loop.py:1051-1075 | the calls are, by increasing index, one for each index whose deltas name an id and a tool |
| `AgentLoopTheorems.InterleavingIsIrrelevant` | rag-backend/app/services/agent_loop.py:998-1075 | every interleaving of the same per-index streams gives the same calls |
| `AgentLoopTheorems.RunEndsWell` | rag-backend/app/services/agent_loop.py:907-1448 | against any provider and host: at most max(1, max_rounds) requests with the prescribed tool choices, calls paired with results and counted, one final event and last, or the provider's error |
| `AgentLoopTheorems.GoesOnWhen` | rag-backend/app/services/agent_loop.py:1079-1103 | a round is followed by another exactly when it did not fail, called tools, and rounds are left |
| `AgentLoopTheorems.UnknownToolDoesNotStop` | rag-backend/app/services/agent_loop.py:1389-1414 | a run in which the model asks for an unknown tool and is asked again |
| `AgentLoopReplies.RunIsDisciplined` | rag-backend/app/services/agent_loop.py:1103-1414 | every assistant message with calls is followed by replies to its calls in order up to the first unknown tool, every request saw exactly the messages before it, and each reply and audit entry is what the host answers after all calls done before: the text of the retrieval, the note for repeated queries, or the text of the other tools |
| `AgentLoopReplies.OpeningMessages` | rag-backend/app/services/agent_loop.py:936-945 | the opening messages: the system prompt unless empty, the history in order, the message of the user |
| `AgentLoopReplies.ToolChoices` | rag-backend/app/services/agent_loop.py:946-966 | tools are withheld in the last round and demanded in the first of a grounded request |
| `AgentLoopEvents.RunIsNarrated` | rag-backend/app/services/agent_loop.py:907-1448 | the events of every run are those of its rounds in order, phases and tokens included, and of its end |
| `AgentLoopTheorems.AllAnsweredWhen` | rag-backend/app/services/agent_loop.py:1205-1213 | every call of a round is answered exactly when no tool of it is unknown |
| `AgentLoopTheorems.SkippedWhen` | rag-backend/app/services/agent_loop.py:1127-1154 | a search call is skipped exactly when it has queries and all of them, normalised, were seen |
| `AgentLoopTheorems.RetrievalsAreBounded` | rag-backend/app/services/agent_loop.py:1127-1163 | each retrieval with queries searches a query not searched before, and there are no more of them than distinct normalised queries |
| `AgentLoopTheorems.ContentCharsCountWhen` | rag-backend/app/services/agent_loop.py:1430-1448 | the collected text is the content of all rounds, and content_chars counts it exactly when no round that called tools streamed text |
| `AgentLoopTheorems.ContentCharsMayMissText` | rag-backend/app/services/agent_loop.py:1430-1448 | a provider that streams text beside its tool calls: content_chars is 0 and the text is not empty |
| `VectorStore.ChunkIdInjective` | db-api-server/storage/lancedb_store.py:355-356 | chunk ids tell documents and indices apart, underscores in document ids included |
| `VectorStore.LanceDBStore.constructor` | db-api-server/storage/lancedb_store.py:25-34 | a new process finds the tables and an empty cache |
| `VectorStore.LanceDBStore.GetExpectedDimensions` | db-api-server/storage/lancedb_store.py:314-330 | the dimension is the cached one, else that of the first row, which is then cached |
| `VectorStore.LanceDBStore.Upsert` | db-api-server/storage/lancedb_store.py:57-115 | the upsert on the fields of the store is the pure step, response included |
| `VectorStore.LanceDBStore.Classify` | db-api-server/storage/lancedb_store.py:73-94 | the loop separates accepted rows, failed positions and error details |
| `VectorStore.LanceDBStore.StoreRows` | db-api-server/storage/lancedb_store.py:295-312 | creating the table with the rows and then replacing them leaves them once |
| `VectorStore.LanceDBStore.CheckSearch` | db-api-server/storage/lancedb_store.py:117-129 | a search learns the dimension and queries the index exactly when the table exists and the dimensions agree |
| `VectorStore.LanceDBStore.DeleteDocument` | db-api-server/storage/lancedb_store.py:170-177 | deleting a document removes its rows and returns how many |
| `VectorStore.LanceDBStore.DeleteVault` | db-api-server/storage/lancedb_store.py:286-293 | deleting a vault drops its table and its cached dimension |
| `VectorStoreTheorems.ReplacedContents` | db-api-server/storage/lancedb_store.py:306-312 | delete by id and add is a map update on (document, index) |
| `VectorStoreTheorems.ReplacedUniqueWhen` | db-api-server/storage/lancedb_store.py:306-312 | chunk ids stay unique exactly when the request does not repeat one |
| `VectorStoreTheorems.IsolatedWhen` | db-api-server/storage/lancedb_store.py:359-363 | calls on one vault leave another alone, in every state, exactly when their table names differ |
| `VectorStoreTheorems.NamesCollide` | db-api-server/storage/lancedb_store.py:359-363 | two vault ids that share a table |
| `VectorStoreTheorems.UniformWhen` | db-api-server/storage/lancedb_store.py:68-98 | an upsert keeps all vectors at the cached dimension exactly when no empty vector outlives a restart into it |
| `VectorStoreTheorems.StepRefines` | db-api-server/storage/lancedb_store.py:57-115 | every upsert, whatever its vectors, every deletion, search and restart takes each vault through the step of a map from (document, index) to rows |
| `VectorStoreTheorems.RunRefines` | db-api-server/storage/lancedb_store.py:57-330 | after any calls and restarts a table holds what the map holds |
| `VectorStoreTheorems.UniformOverRunWhen` | db-api-server/storage/lancedb_store.py:57-330 | in every state of a run a vault holds vectors of one dimension, the cached one, exactly when none of its upserts learns a dimension beside a stored empty vector |
| `VectorStoreTheorems.DimensionsMayMix` | db-api-server/storage/lancedb_store.py:314-330 | a run that mixes dimensions: an empty vector, a restart, another vector |
| `VectorStoreTheorems.VaultStepRefines` | db-api-server/storage/lancedb_store.py:57-115 | a vault of one dimension takes the step of a map and a remembered dimension, which also tell whether it keeps one dimension |
| `VectorStoreTheorems.VaultRunRefines` | db-api-server/storage/lancedb_store.py:57-330 | over any calls and restarts a vault keeps one dimension in every state exactly when that map and dimension do, and then it is that map and dimension |
| `VectorStoreTheorems.NoEmptyNeverMixes` | db-api-server/storage/lancedb_store.py:57-330 | as they do over all calls that upsert no empty vector |
| `VectorStoreTheorems.RunKeepsIdsUnique` | db-api-server/storage/lancedb_store.py:306-312 | without repetition in a request no table ever holds a chunk id twice |
| `VectorStoreTheorems.ChunksReadBack` | db-api-server/storage/lancedb_store.py:213-256 | after any calls a document reads back as its rows in the map, by strictly increasing index |
| `VectorStoreOutcomes.UpsertStores` | db-api-server/storage/lancedb_store.py:73-115 | after an upsert the last chunk of the dimension for each document and index is stored with its own document, index, text, vector and metadata |
| `VectorStoreOutcomes.UpsertKeeps` | db-api-server/storage/lancedb_store.py:295-312 | what no chunk of the dimension names is as before |
| `VectorStoreOutcomes.UpsertReadsBack` | db-api-server/storage/lancedb_store.py:213-256 | after any calls and an upsert every chunk of the dimension of its vault reads back as it was sent |
| `VectorStoreOutcomes.UpsertAnswers` | db-api-server/storage/lancedb_store.py:57-115 | the answer to an upsert: the positions of the wrong dimension in order, each with its text, and the number of the others |
| `VectorStoreOutcomes.DimensionWhen` | db-api-server/storage/lancedb_store.py:314-330 | an upsert is held to the cached dimension, else that of the first row, else that of its first chunk |
| `VectorStoreOutcomes.DeleteDocumentAnswers` | db-api-server/storage/lancedb_store.py:170-177 | deleting a document answers how many rows it had and leaves the rows of the others in order |
| `VectorStoreOutcomes.DeleteVaultAnswers` | db-api-server/storage/lancedb_store.py:286-293 | deleting a vault answers how many rows its table had; table and cached dimension are gone |
| `VectorStoreOutcomes.AnswersWhen` | db-api-server/storage/lancedb_store.py:117-129 | a search reaches the index exactly when the table exists and no other dimension is known |
| `VectorStoreOutcomes.TableNameWhen` | db-api-server/storage/lancedb_store.py:359-363 | a vault has a table exactly when its id holds a letter or digit, named after what lies between the first and the last |
| `StorageClient.UpsertWithRetry` | rag-indexer/storage/storage_client.py:27-61 | the retry loop computes the specified answer, server state and number of requests |
| `StorageClient.AnswerAccounts` | rag-indexer/storage/storage_client.py:27-61 | for every server that accounts for its chunks the answer accounts for all: increasing positions of the original request, the rest counted, at most four requests, no index error |
| `StorageClient.StoreIsAccountable` | db-api-server/storage/lancedb_store.py:73-115 | the vector store is such a server |
| `StorageClient.ClientMeetsStore` | rag-indexer/storage/storage_client.py:27-61 | client and store together: the failed positions are exactly those of the wrong dimension, the others are stored by one upsert in effect, in one request or four |
| `StorageClientRequests.RequestsFollow` | rag-indexer/storage/storage_client.py:27-61 | for every accountable server: the first request sends all chunks, each further one exactly those refused by the one before, until none is or four are made, and the answer sums up the replies |
| `StorageClient.DetailsNameOriginalPositionsWhen` | rag-indexer/storage/storage_client.py:46-59 | the error details name positions of the original request exactly when the refused chunks are its first ones |
| `StorageClient.DetailsMayNameOthers` | rag-indexer/storage/storage_client.py:46-59 | two chunks of which the second is refused: the details are not those of the original request |
| `Drift.FitTextToBudget` | pdf-sidecar/drift.py:124-153 | the binary search refines its recursive form |
| `Drift.RunWithinBudget` | pdf-sidecar/drift.py:342-470 | the loop over the newest lines sends the specified prompt |
| `Drift.SummarizeChunked` | pdf-sidecar/drift.py:576-648 | the loop takes the specified steps and returns the last summary |
| `Drift.TakeNewest` | pdf-sidecar/drift.py:605-614 | the inner loop finds the first of the newest messages that fit |
| `DriftTheorems.FitIsAtAnEdge` | pdf-sidecar/drift.py:124-153 | without a marker, for every tokenizer: the result is a prefix that fits and would not with one more character |
| `DriftTheorems.FitWhen` | pdf-sidecar/drift.py:124-153 | with a marker: a text that does not fit is cut where one character more would not fit, stripped at its end, and marked |
| `DriftTheorems.FitIsLongest` | pdf-sidecar/drift.py:142-150 | when the estimate is monotone it is the longest prefix that fits |
| `DriftTheorems.JoinLines` | pdf-sidecar/drift.py:402-406 | splitting into lines and joining them gives the text back |
| `DriftTheorems.DroppedLinesMakeItFit` | pdf-sidecar/drift.py:399-412 | a prompt whose newest line fits is sent as a tail of its lines that fits, and would not with the line before |
| `DriftTheorems.KeptIsLongest` | pdf-sidecar/drift.py:405-412 | when the estimate is monotone no longer tail fits |
| `DriftTheorems.SentFitsWhen` | pdf-sidecar/drift.py:342-470 | when tokens add up and gaps of white space are small, what is sent fits exactly when the whole prompt fits or its newest line does: the last resort never fits |
| `DriftTheorems.LastResortMayOverflow` | pdf-sidecar/drift.py:414-446 | a prompt that the last resort sends over the budget |
| `DriftTheorems.LastResortCuts` | pdf-sidecar/drift.py:414-446 | the last resort cuts the system prompt to the window and the newest line to what that leaves |
| `DriftSummaries.ChunksAreTheMessages` | pdf-sidecar/drift.py:597-646 | read backwards the chunks are the messages, each assigned to one completion, with no more completions than messages |
| `DriftSummaries.ChunksFitTheRoom` | pdf-sidecar/drift.py:600-632 | each chunk fits the room and could take no more, or is the single message that exceeds it, cut exactly then |
| `DriftSummaries.RoomIs` | pdf-sidecar/drift.py:592-600 | the room is the window without the answer, the margin and the summary so far, one token at least |
| `DriftSummaries.CutMessageIs` | pdf-sidecar/drift.py:616-630 | a message that exceeds the room alone keeps its role, and its line is cut to the room |
| `DriftSummaries.PromptIs` | pdf-sidecar/drift.py:559-563 | the prompt: the summary so far under its heading, then each message on a line after its role |
| `DriftSummaries.AnswersAreStripped` | pdf-sidecar/drift.py:565-573 | each summary is the answer to what is sent, stripped, with at most half the window left for it |
| `DriftSummaries.LinesOfPrompt` | pdf-sidecar/drift.py:559-563 | the lines of a summary prompt: the summary so far under its heading, then the messages under theirs |
| `DriftSummaries.SentWholeWhen` | pdf-sidecar/drift.py:399-446 | a prompt of several lines is sent whole exactly when it fits, and the system prompt with it |
| `DriftSummaries.SummariesChain` | pdf-sidecar/drift.py:597-646 | each completion starts from the answer to the one before; its prompt is sent whole exactly when prompt, headings and instructions fit, else as a tail of its lines that cannot be longer, else as its newest line, cut |
| `DriftSummaries.TailReachesWhen` | pdf-sidecar/drift.py:399-446 | when the estimate is monotone, the lines of a prompt from any line on are sent exactly when they fit; if not even the newest line fits, for lines that no cut line can be mistaken for |
| `DriftSummaries.SummaryReachesWhen` | pdf-sidecar/drift.py:399-446 | when the estimate is monotone, the previous summary is sent whole exactly when everything below its heading fits |
| `DriftSummaries.MessageReachesWhen` | pdf-sidecar/drift.py:399-446 | when the estimate is monotone, a message before the newest is sent whole exactly when it fits with those after it; the newest too, if its last line fits |
| `DriftSummaries.SummaryMayBeDropped` | pdf-sidecar/drift.py:600-645 | a message within the room, uncut, whose completion is not sent the previous summary |
| `DriftSummaries.MessageMayBeDropped` | pdf-sidecar/drift.py:600-645 | two messages within the room, of which the older is sent to no completion |
| `StateCompiler.RenderField` | rag-backend/app/services/campaign_state_compiler.py:236-267 | the rendering loop yields the specified text |
| `StateCompiler.CompileCampaignState` | rag-backend/app/services/campaign_state_compiler.py:87-198 | the loops compile the specified block |
| `StateCompiler.SelectFields` | rag-backend/app/services/campaign_state_compiler.py:132-194 | the loop over the ordered fields makes the specified selection |
| `StateCompiler.OrderOfInputIsIrrelevant` | rag-backend/app/services/campaign_state_compiler.py:107-108 | with unique keys the block is the same for every permutation of the fields |
| `StateCompiler.BlockAccounts` | rag-backend/app/services/campaign_state_compiler.py:129-198 | every enabled field is listed once, in order, as included, truncated or empty; a field is truncated exactly when it did not fit at its turn; the used tokens are those included and within the budget |
| `StateCompiler.SingleIsShown` | rag-backend/app/services/campaign_state_compiler.py:236-258 | a single field is shown on one line under its label, or its key without one, with key and mode |
| `StateCompiler.ListIsShown` | rag-backend/app/services/campaign_state_compiler.py:260-270 | a list is shown line by line, resolved items and open ones marked |
| `StateCompiler.EmptyWhen` | rag-backend/app/services/campaign_state_compiler.py:213-217 | a field holds nothing when its text is white space only, or its list has no items |
| `StateCompiler.LastValuesCount` | rag-backend/app/services/campaign_state_compiler.py:123-127 | of several values for one key the last counts |
| `StateCompiler.SeparatorsCost` | rag-backend/app/services/campaign_state_compiler.py:52-54 | the text counts at most ceil((k-1)/2) tokens beyond the used tokens, and exactly so many when no field is rounded up |
| `StateCompiler.TextFitsWhen` | rag-backend/app/services/campaign_state_compiler.py:129-198 | the text stays within the used tokens, and within the budget, exactly when the rounding of the included fields and what the budget leaves absorb the separators |
| `StateCompiler.TextMayExceedBudget` | rag-backend/app/services/campaign_state_compiler.py:129-198 | two fields without rounding that fill the budget: the text exceeds it |
| `PdfBatches.MakeBatches` | pdf-sidecar/parser.py:396-422 | the batches tile the pages, and are no more than the workers exactly when the largest size suffices |
| `PdfBatches.SizeIs` | pdf-sidecar/parser.py:396-414 | the size of a batch is the least the workers can finish in one round, but 8 pages at least and 30 at most |
| `PdfBatches.TilesAscend` | pdf-sidecar/parser.py:415-422 | the pages of a batch come before those of all later batches |
| `PdfBatches.MergeAsCompleted` | pdf-sidecar/parser.py:645-693 | the collecting loop and the sort compute the merged elements |
| `PdfBatches.CompletionOrderIsIrrelevant` | pdf-sidecar/parser.py:645-693 | the merged elements are the same sequence for every completion order and any failed batches |
| `PdfBatches.MergeIsInPageOrder` | pdf-sidecar/parser.py:692-693 | they are each batch sorted by itself, one after the other |
| `PdfBatches.MergedReads` | pdf-sidecar/parser.py:692-693 | they are all elements of the batches that did not fail, by page, then by height |
| `PreprocessingTheorems.JoinedInOnePass` | shared_contracts/preprocessing.py:164-166 | the three replacements do in one pass: pairs of newlines and markers become pairs, other newlines spaces |
| `PreprocessingTheorems.ParagraphsKeepInkWhen` | shared_contracts/preprocessing.py:164-173 | steps 5 and 6 keep the non-white-space characters exactly when the text holds no marker |
| `PreprocessingTheorems.HeadingShape` | shared_contracts/preprocessing.py:54 | what the heading pattern matches, a newline as its white space included |
| `PreprocessingTheorems.LayoutKeepsInkWhen` | shared_contracts/preprocessing.py:153-173 | the same for steps 4b to 6 |
| `PreprocessingNormalForm.LayoutIsNormal` | shared_contracts/preprocessing.py:153-173 | every output is in the normal form, for every text, markers included |
| `PreprocessingNormalForm.ParagraphsIdempotent` | shared_contracts/preprocessing.py:164-173 | steps 5 and 6 are idempotent |
| `PreprocessingNormalForm.LayoutIdempotent` | shared_contracts/preprocessing.py:153-173 | steps 4b to 6 are idempotent, for every text |
| `PreprocessingShape.HeadingWhen` | shared_contracts/preprocessing.py:54 | a heading line is exactly one to six marks, a white space and the rest of the line |
| `PreprocessingShape.WrappedSetsApart` | shared_contracts/preprocessing.py:153 | headings, found from left to right at the start of a line, are set between pairs of newlines, and nothing else changes |
| `PreprocessingShape.CappedKeeps` | shared_contracts/preprocessing.py:155 | of each run of newlines the first two stay |
| `PreprocessingShape.ParagraphsAre` | shared_contracts/preprocessing.py:164-173 | steps 5 and 6 write every gap anew, as a paragraph break, a blank or both, and change nothing else but the ends |
| `PreprocessingShape.LayoutIs` | shared_contracts/preprocessing.py:153-173 | steps 4b to 6 are the three of them, one after the other |
| `FileBatches.ValidateShaPolicy` | shared_contracts/models.py:2057-2082 | the loop accepts exactly the batches whose only hash is that of an update's first operation |
| `FileBatches.GroupChanges` | rag-backend/app/api/update_mode.py:188-198 | the dictionary of groups holds each file's changes, in order of first appearance |
| `FileBatches.CollectOps` | rag-backend/app/api/update_mode.py:212-239 | the loop collects the operations of a file |
| `FileBatchesTheorems.FilesInOrder` | rag-backend/app/api/update_mode.py:188-198 | the files come in the order of their first changes |
| `FileBatchesTheorems.InOrderIsStable` | rag-backend/app/api/update_mode.py:204-209 | the changes of a file are applied by resolve order, those of one rank in the order they came |
| `FileBatches.BuildFileBatches` | rag-backend/app/api/update_mode.py:164-311 | the loops build the specified batches or raise |
| `FileBatchesTheorems.BatchWhen` | rag-backend/app/api/update_mode.py:204-309 | a file's batch is valid exactly under a condition on its changes, and then does what they ask for: per used change, in order, its operation, anchor, content and description, the hash on the first operation of an update alone; or the last change's whole text |
| `FileBatchesTheorems.BatchesWhen` | rag-backend/app/api/update_mode.py:164-311 | the batches are built exactly when every file meets it; one valid batch per file, in order of first appearance, each doing what its changes ask for |
| `FileBatchesTheorems.EveryCompleteChangeOnce` | rag-backend/app/api/update_mode.py:213-231 | when every complete change carries an operation each is used exactly as often as it was accepted |
| `FileBatchesTheorems.RequestAcceptsWhen` | shared_contracts/models.py:2178-2197 | the batches pass the request's checks exactly when there is one and no two used changes share an id |
| `FileBatchesTheorems.OperationsReachTheRequest` | shared_contracts/models.py:2178-2197 | distinct ids, operations everywhere and valid groups: the request accepts any nonempty result |
| `FileBatchesTheorems.OlderFormConvertsWhen` | shared_contracts/models.py:2097-2176 | the older form converts exactly when it is not empty and repeats neither id nor file, and then to one batch per change |

## Left out

- HTTP, server-sent events, Redis, SQL sessions, audit logs, logging and metrics: foreign calls without a law of their own.
- LanceDB, vector search, full-text search and its index, embeddings, cosine values: foreign calls; only "distance exceeds threshold" is kept.
- The normalisation of suggested fields and of source references: not part of this model; acceptance starts from the stored, normalised proposal.
- Prompt assembly, the state-delta wording and the JSON handling around tool arguments: no hard property.
- Steps 0 to 4a of preprocessing (Unicode normalisation, character replacement, page numbers, hyphen joining): the hyphen step is not idempotent, so no law holds of the whole.
- Extraction of elements from a PDF, progress callbacks, GPU set-up: foreign calls.
- The indexing worker, the update-mode session store and applier, retrieval and the pipeline executor: not part of this model.
- Schema changes of update mode: their rollback does not restore updated fields, so atomicity is not claimed.
- Exceptions of retrieval inside the agent loop: they end the stream; the model's host always answers.
- The agent loop's event payloads beyond round, phase, tool and counts, and the hits, tokens and sources of its audit entries: copied from tool results.
- Listing documents and text search over a vault: reads without a law of their own.
- Validator messages: a validation failure is modelled without its text.
- CampaignStateService.Database.ApplyPatch: row order within the new version is not stored, since the tables are keyed; the order of list items when read back is the database's.
- DriftTheorems.SentFitsWhen: speaks of estimates that add up over the parts of a text, since a tokenizer may count a cut text and its marker for less than their parts.
- DriftSummaries.MessageReachesWhen: of the newest message, when its last line does not fit, `SummariesChain` says what is sent; a cut line can equal the whole.
- DriftTheorems.FitIsAtAnEdge: speaks of cutting without a marker, because the marker is added after the search.
- PdfBatches.MergeAsCompleted: vertical positions are reals, so no not-a-number value occurs among them.
- FileBatchesTheorems.OlderFormConvertsWhen: the conversion is modelled on values, because the validator only builds and assigns a list.
- VectorStoreTheorems.RunRefines: requires table names that differ, which the store does not check.
- CampaignStateProposals.Normalized: the lengths that the schema of a stored proposal demands afterwards are not part of this model, nor is the content of a reference, which an arbitrary filter judges.
