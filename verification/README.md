# Verification model of the Codex–Feishu bridge

The bridge mirrors Codex tasks into Feishu chats and carries Feishu messages back into Codex. It
survives crashes because everything it decides is in SQLite tables and append-only rollout files.
This project models the state machines over those tables and files, and the self-contained
algorithms beside them, and proves what they keep over whole runs.

The pattern is the same throughout. A transaction or a locked section is a pure function on a
datatype that holds the tables. A class whose fields are those tables has one method per operation,
written step by step as the program does it (checks, updates, rollback on a raise, loops), and each
method's contract equates its effect with the function. `Next` lists the steps that may interleave,
crashes and restarts included; `Run` is any sequence of them; an invariant is kept by every step;
the main lemmas speak about every run. Beside the function there is an account of its own of what
the operation means (modules named Meaning, Outcomes, Decisions, States, History): conditions on the
message, the answer or the earlier actions, with a lemma that both agree for every input.

| module | what it models |
|---|---|
| RolloutBytes, RolloutSpec, RolloutReader, RolloutRefinement | the incremental reader: complete records, the backward scan, restart recovery, and that reading in pieces is reading at once |
| RolloutMeaning, RolloutErrors | what a file means, told of its records as a whole, and when a read fails with which error |
| RolloutIngest, IngestHistory, RolloutRuns | the ingesting transaction, what its tables tell after any transactions, and runs of growth, polls, failures and restarts: exactly-once |
| DesktopText, DesktopEcho, DesktopReturns | recognising a desktop submission when it comes back through the rollout, and which submissions never are |
| CliSearch, Dispatch, DispatchOutcomes | proving CLI submissions, at-most-once submission over the four paths, and what becomes of a message in every run |
| DispatchRecords | the two columns that DesktopEcho and Dispatch share |
| OutboxCards, Outbox, OutboxRuns | cards with images, the provider outbox, its worker and reconciliation |
| OutboxOutcomes, OutboxDeliveries | which answers leave a row in which state, and what the provider is sent |
| Approvals, ApprovalDecisions, ApprovalStates | single-use approvals against an emergency stop, who decided what goes out, and how approvals end |
| Routing, RoutingOutcomes | the reply tree that decides which task a Feishu reply belongs to, and what every run records of a message |
| Connection | request and reader threads of the App Server connection |
| Jcs, JcsUnique, JcsForm, JcsOrder, JcsNumber, Audit | RFC 8785 text and the audit chain built on it |
| Markdown, MarkdownMeaning, Utf8Chunks, RateLimit | link and image scanners and what links and images are, chunking, token buckets |

## What turned out false, and exactly when it holds

- Restart recovery fails exactly when a committed record is blank: the reader accepts blank lines,
  the restart scan parses every line as JSON (`RolloutSpec.RecoverAgrees`). After a restart such a source
  delivers nothing in any continuation (`RolloutRuns.BlankStallsAfterRestart`); one blank line behind a
  caught-up file is enough (`RolloutRuns.OneBlankLineStalls`).
- A source that is checkpointed before its session metadata is complete keeps the placeholder schema
  version, and every later batch that reaches the metadata is refused, so it never delivers
  (`RolloutRuns.CheckpointStallsIff`, `RolloutRuns.StalledForever`).
- A desktop submission that comes back with a line end added is recognised exactly when the added line end
  does not run into one of the text's own: text ending in a line feed is not, nor is text ending in a
  carriage return when a line feed follows (`DesktopText.EchoIsRecognisedIff`,
  `DesktopText.TextWithLineFeedIsNotRecognised`).
- Behind an application preamble the same holds, and besides text and added line end must not complete
  another request marker; the added line end alone can do that (`DesktopText.WrappedEchoIsRecognisedIff`,
  `DesktopText.AddedLineEndCompletesMarker`).
- A late item is compared after normalisation, so a text with further line ends at either end is never
  recognised late (`DesktopText.LateEchoIsRecognisedIff`).
- A desktop submission is not always bound to its rollout item. An unbound one still can be exactly while its
  dispatch is in flight, or when it was reported as submitted, is at most two hours old and some user message
  normalises to its text (`DesktopReturns.CanBeBoundIff`); the limit of twenty candidates can only delay it,
  because older candidates grow too old first. A crash between the send fence and the
  confirmation, or a failure reported by the gateway, closes it for good, and nothing else leaves a record in
  these states (`DesktopReturns.ClosedByCrashOrRefusal`); its echo is then mirrored like any other user
  message (`DesktopReturns.LostEchoIsMirrored`).
- The queue path's accepting update admits an already accepted record, but that record's tombstone
  makes the transaction fail; it succeeds exactly from bytes_sending (`Dispatch.AcceptSucceedsIff`).
- For a stale cursor that names another version and an earlier place at once, the ingesting and the storing layer
  report different errors, and only then (`IngestHistory.LayersDisagreeIff`).
- The approval state expired is never reached (`Approvals.NeverExpired`).
- At most one response per approval does not mean one response per server request: a request is refused at
  once when its method or parameters are not served, when it offers no decision or time, or when its id came
  before with another subject or session, and the first approval can still be decided. A request id gets at
  most one response exactly when no action of the run meets that guard for it, or a single one does and no
  decision goes out (`Approvals.OneResponsePerRequestIff`). An App Server that gives each id one meaning,
  with decisions and time to answer, never gets a second response
  (`Approvals.ConsistentRequestsAreAnsweredOnce`); one that does not can (`Approvals.ConflictIsAnsweredTwice`).
- The search through message history need not end: it compares a page token with the previous one only
  (`Outbox.SearchNeedNotEnd`).
- The audit check finds every forbidden field exactly when no tuple hides one: it does not look into tuples,
  which the canonical text prints as arrays (`Audit.CleanIffChecked`, `Audit.TupleHidesField`).
- For the empty text the chunker returns one empty chunk, where no chunk would do (`Utf8Chunks.Split`).

## Assumptions

- SHA-256 and HMAC are injective and print plain hexadecimal; random tokens may collide and are then
  refused by their primary key. A text stands for its own digest where only equality of digests matters.
- Rollout files only grow, keep their identity, and belong to one thread each; an empty line is not
  JSON and the placeholder version is not a supported one. A read sees one snapshot of the file.
- One service loop; only the approval and connection modules have several threads, and RateLimit's runs
  interleave the passes of any number of callers.
- In DesktopEcho each user item has one revision and carries no client id of a desktop dispatch (the
  desktop submission does not send one), and the size of an existing rollout file can be read. The clock
  does not run backwards and moves between two dispatches, so no two rows have the same creation time.
- In Dispatch a control message has no dispatch record of its own that is still open when its control is
  done: the program looks for control messages without a record only.
- In Connection request ids are distinct.
- In Routing the provider reports one fixed parent per message, anchors are not replies, and one
  anchor is delivered per task. P2P mode is not part of this model.
- In RateLimit time is a real number from a monotone clock; a token is granted at the clock reading
  its bucket saw.

Dispatch and DesktopEcho have a table class each because they look at different columns of one table:
Dispatch follows the attempt, record and tombstone of a message over all four paths, DesktopEcho the text
digest, age and bound item of desktop submissions.

## Model
| member | source | states |
|---|---|---|
| RolloutBytes.TailAppend | codex_feishu_bridge/codex/rollout_observer.py:159-168 | Bytes that arrive later continue the same partial record: the tail of a grown file is the tail of the old tail plus the new bytes |
| RolloutBytes.BackwardAgreesWithForward | codex_feishu_bridge/codex/rollout_observer.py:26-49 | At every positive record boundary of every file the backward search selects the body that the forward pass hashed for its last record, empty and CR-terminated records included |
| RolloutReader.LineStart | codex_feishu_bridge/codex/rollout_observer.py:35-46 | The block scan stops just after the last line feed before its end, for every block size from 1 up |
| RolloutReader.LastCommittedRecordHash | codex_feishu_bridge/codex/rollout_observer.py:26-49 | Hash of the line that ends at the committed offset, nothing at offset 0 |
| RolloutReader.StateBeforeOffset | codex_feishu_bridge/codex/rollout_observer.py:59-102 | Rebuilds turn and active turns from the records before the cursor, with the same four failures |
| RolloutReader.IncrementalRolloutReader.Read | codex_feishu_bridge/codex/rollout_observer.py:108-291 | One read is the cursor checks followed by one pass over the rest of the file; a failed read leaves the in-memory states as they were |
| RolloutReader.IncrementalRolloutReader.Open | codex_feishu_bridge/codex/rollout_observer.py:121-158 | Path, identity, truncation and last-record checks, then the cached, fresh or rebuilt turn state |
| RolloutReader.IncrementalRolloutReader.ReadRecords | codex_feishu_bridge/codex/rollout_observer.py:159-270 | The reading loop computes the pass over complete records and stops at the first partial one |
| RolloutSpec.FoldAppend | codex_feishu_bridge/codex/rollout_observer.py:159-270 | A pass over two pieces is a pass over the first followed by a pass over its partial tail and the second |
| RolloutSpec.PartialRecordIsIgnored | codex_feishu_bridge/codex/rollout_observer.py:160-162 | A partial last record changes nothing in the result of reading a file |
| RolloutSpec.FoldLastHash | codex_feishu_bridge/codex/rollout_observer.py:164-168 | The hash a pass keeps is the hash of its last complete record |
| RolloutSpec.RecoverAgrees | codex_feishu_bridge/codex/rollout_observer.py:70-102 | The restart scan yields exactly the turn state of the committed records, and fails exactly when one of them is blank |
| RolloutRefinement.ResumedReadRefinesOneShot | codex_feishu_bridge/codex/rollout_observer.py:108-291 | A read resumed at any committed cursor gives what remains of one read of the whole file, with the cached state always and without it exactly when no committed record is blank |
| RolloutRefinement.FirstRead | codex_feishu_bridge/codex/rollout_observer.py:120-127 | A read without a cursor is one read of the whole file |
| RolloutRefinement.OneShotCommits | codex_feishu_bridge/codex/rollout_observer.py:272-278 | The cursor of a finished read stands at the end of the complete records |
| RolloutRefinement.OtherFilesAreRefused | codex_feishu_bridge/codex/rollout_observer.py:128-145 | A cursor is used only for its own path and file identity, on a file at least as long whose last record before the cursor is the one it was taken from |
| RolloutMeaning.ReadMeans | codex_feishu_bridge/codex/rollout_observer.py:159-270 | A file is accepted exactly when each record can follow those before it; then the events are those of its visible messages in order, each normalised with its own turn, else the nested one, else that of the last turn_context before it, and its own thread or the session's; active are the turns whose last task event is a start |
| RolloutErrors.CursorErrors | codex_feishu_bridge/codex/rollout_observer.py:121-158 | Which of the cursor errors is reported, exactly when |
| RolloutErrors.SessionErrors | codex_feishu_bridge/codex/rollout_observer.py:178-198 | Which error a session header gives, exactly when |
| RolloutErrors.MessageErrors | codex_feishu_bridge/codex/rollout_observer.py:205-270 | Which error a message record gives, exactly when |
| RolloutErrors.RecordErrors | codex_feishu_bridge/codex/rollout_observer.py:165-208 | Which error any other record gives, exactly when; blank lines give none |
| RolloutIngest.IngestStore.IngestRolloutBatch | codex_feishu_bridge/feishu/outbound.py:174-229 | One transaction: items, hand-over of new items and cursor change together, every refusal restores all of them |
| RolloutIngest.IngestStore.StoreCheckpoint | codex_feishu_bridge/storage.py:429-506 | The first cursor of a source is stored with no event; its refusals change nothing |
| RolloutIngest.InsertEventsHandsFirstOccurrences | codex_feishu_bridge/feishu/outbound.py:191-210 | Inserting a batch hands over the first occurrence of every new key, in order |
| RolloutIngest.InsertEventsAccepts | codex_feishu_bridge/feishu/outbound.py:191-210 | A batch is accepted exactly when queueing refuses nothing in it that is new |
| RolloutIngest.DedupKeepsOrder | codex_feishu_bridge/feishu/outbound.py:191-210 | Hand-over follows the order of first occurrence |
| IngestHistory.SucceedsIff | codex_feishu_bridge/feishu/outbound.py:174-229 | A batch or a first cursor is accepted exactly when its cursor goes on where the stored one stands (same file and version, not behind, no other record at the same place), nothing new in it is refused, and a first cursor past the start has a hash |
| IngestHistory.LayersDisagreeIff | codex_feishu_bridge/storage.py:429-506 | The two layers that check a cursor report different errors exactly for another version at an earlier place |
| IngestHistory.TablesTellHistory | codex_feishu_bridge/feishu/outbound.py:174-229 | After any transactions of any callers: handed over are the first occurrences among the accepted events, each item is the first event of its key, each cursor the last accepted one of its path |
| IngestHistory.CursorsGoOn | codex_feishu_bridge/storage.py:429-506 | Whatever is asked for, the cursor of a source keeps file and version, never goes back, and keeps its hash while it stands still |
| RolloutRuns.Poll | codex_feishu_bridge/service.py:641-666 | The service's work on one source: checkpoint a new one, otherwise ingest what it gained |
| RolloutRuns.RunKeepsInv | codex_feishu_bridge/service.py:641-666 | Growth, polls, failed ingests and restarts keep every cursor at the end of a committed prefix and the log equal to the events since the checkpoint |
| RolloutRuns.ExactlyOnce | codex_feishu_bridge/feishu/outbound.py:174-229 | In every run each distinct key is handed over once, in order of first occurrence, and each source's committed batches hold exactly the events between its checkpoint and its cursor |
| RolloutRuns.NothingIsUndone | codex_feishu_bridge/feishu/outbound.py:174-229 | No step moves a cursor back or takes back what was handed over |
| RolloutRuns.CaughtUpMatchesOneShot | codex_feishu_bridge/codex/rollout_observer.py:108-291 | A source read to its end has, after any run, the cursor, events and active turns of one read of the file as it is |
| RolloutRuns.PollAdvancesIff | codex_feishu_bridge/service.py:659-666 | A poll brings a source to its end exactly when it can resume, the file is acceptable, the schema version is the stored one and queueing refuses nothing new |
| RolloutRuns.CheckpointStallsIff | codex_feishu_bridge/service.py:114-127 | A checkpoint stores the placeholder version exactly when the session metadata is not yet complete in the file |
| RolloutRuns.StalledForever | codex_feishu_bridge/feishu/outbound.py:185-186 | A source checkpointed that way delivers nothing in any continuation: its schema version can no longer change |
| RolloutRuns.EmptyFileStalls | codex_feishu_bridge/service.py:114-127 | For instance an empty file that was polled once never delivers anything |
| RolloutRuns.BlankStallsAfterRestart | codex_feishu_bridge/codex/rollout_observer.py:59-102 | After a restart a source with a blank committed record keeps its cursor and delivers nothing in any continuation |
| RolloutRuns.OneBlankLineStalls | codex_feishu_bridge/codex/rollout_observer.py:59-102 | For instance one blank line behind any caught-up file is committed by the next poll, and after a restart nothing written later is delivered |
| DesktopText.EchoIsRecognisedIff | codex_feishu_bridge/codex/desktop_dispatch.py:26-51 | Every submitted text that comes back with no line end or one added is recognised exactly when the added one does not run into its own |
| DesktopText.TextWithLineFeedIsNotRecognised | codex_feishu_bridge/codex/desktop_dispatch.py:26-51 | For instance a text that ends in a line feed is not recognised with another one behind it |
| DesktopText.DigestsDistinguish | codex_feishu_bridge/codex/desktop_dispatch.py:26-37 | Two texts share a digest only when they differ in that line end |
| DesktopText.WrappedEchoIsRecognisedIff | codex_feishu_bridge/codex/desktop_dispatch.py:52-66 | Behind an application preamble, with or without an added line end, the text is recognised exactly when text and line end complete no further request marker and the line end does not run into the text |
| DesktopText.AddedLineEndCompletesMarker | codex_feishu_bridge/codex/desktop_dispatch.py:52-66 | A text that completes no marker itself and is not recognised, because the added line end completes one |
| DesktopText.LateEchoIsRecognisedIff | codex_feishu_bridge/codex/normalizer.py:178-187 | A late plain message, one without request marker and without any tag, matches exactly when the submitted text has no line ends at either end beyond the one that is forgotten |
| DesktopText.WrapperIff | codex_feishu_bridge/codex/desktop_dispatch.py:52-66 | A preamble counts exactly when, apart from white space around it, it begins as a list of files (and files were sent) or is a browser context from its opening to its closing tag |
| DesktopEcho.EchoStore.ReconcileDelayedReturn | codex_feishu_bridge/feishu/outbound.py:603-670 | A late item is claimed, by its normalised text, by the desktop submission that the candidate search selects, and nothing else changes |
| DesktopEcho.LateClaimIff | codex_feishu_bridge/feishu/outbound.py:610-645 | A submission claims an item exactly when it awaits its return, matches the text, fewer than twenty awaiting ones are older, and none of those matches |
| DesktopEcho.EchoStore.EnqueueEvent | codex_feishu_bridge/feishu/outbound.py:231-295 | The event of a user item is refused for a thread that is not opted in or has no confirmed anchor; otherwise it is dropped as internal, recognised, claimed late, or handed to queueing |
| DesktopEcho.EchoStore.IngestUserItems | codex_feishu_bridge/feishu/outbound.py:174-229 | The items of a batch that have an event, in order, or nothing when one is refused or the transaction is interrupted |
| DesktopEcho.FindNewUserTurn | codex_feishu_bridge/codex/desktop_dispatch.py:132-175 | First matching item among the records that began after the snapshot |
| DesktopEcho.RunKeepsInv | codex_feishu_bridge/codex/desktop_dispatch.py:271-351 | Over all interleavings of file growth, dispatch steps, ingestion and crashes the snapshot is not behind the cursor and nothing after it belongs to another dispatch |
| DesktopEcho.ReturnsAreUnique | codex_feishu_bridge/codex/desktop_dispatch.py:329-350 | No two dispatches of a thread are ever bound to the same item, and a record is accepted or completed exactly when its tombstone exists |
| DesktopEcho.EchoIsNeverMirrored | codex_feishu_bridge/feishu/outbound.py:246-295 | In every run a bound item is never queued and every other item between checkpoint and cursor that has an event and is not internal is queued exactly once |
| DesktopEcho.NothingIsTakenBack | codex_feishu_bridge/feishu/outbound.py:603-670 | A binding, a tombstone and a hand-over are never undone |
| DesktopReturns.SearchFinds | codex_feishu_bridge/codex/desktop_dispatch.py:132-175 | The search finds the first item behind the snapshot that matches, and nothing exactly when none does |
| DesktopReturns.ClaimRule | codex_feishu_bridge/feishu/outbound.py:610-645 | A late item is claimed by the oldest submission of its thread that it matches, among the twenty oldest that were reported as submitted, are unconfirmed and at most two hours old |
| DesktopReturns.CompletedIff | codex_feishu_bridge/service.py:950-975 | In every run a submission is completed exactly when the turn it had become was reported as over |
| DesktopReturns.CanBeBoundIff | codex_feishu_bridge/feishu/outbound.py:603-670 | In every run an unbound submission can still be bound exactly when its dispatch is in flight, or it is outcome_unknown and marked as submitted, at most two hours old, and some user message that has an event and is not internal normalises to its text; every other one stays unbound in every continuation |
| DesktopReturns.ClosedByCrashOrRefusal | codex_feishu_bridge/codex/desktop_dispatch.py:274-327 | In every run a record is left in bytes_sending without its call exactly when the process stopped between fence and confirmation, and left unmarked in outcome_unknown exactly when the gateway reported a failure |
| DesktopReturns.LostEchoIsMirrored | codex_feishu_bridge/codex/desktop_dispatch.py:274-327 | For every submitted text, a run in which the echo of a submission lost by a crash, a gateway failure or two hours of silence is handed to queueing and the record stays unbound |
| CliSearch.FindNewUserTurn | codex_feishu_bridge/codex/cli_dispatch.py:118-183 | The first line that is the submitted text in a turn which started and then got its context after the submission; none exactly when no line is |
| CliSearch.SubmittedTextIsFoundIff | codex_feishu_bridge/codex/cli_dispatch.py:34-50 | A text that comes back with a line end added is found exactly when that line end is forgotten |
| Dispatch.DispatchStore.InsertAttempt | codex_feishu_bridge/codex/controller.py:181-221 | A known attempt is reported or refused as conflicting; a new one gets both rows |
| Dispatch.DispatchStore.Accept | codex_feishu_bridge/codex/controller.py:275-293 | Record, attempt and tombstone change together or not at all |
| Dispatch.DispatchStore.AcceptReconciled | codex_feishu_bridge/codex/controller.py:336-374 | Late acceptance from the given states, with its tombstone |
| Dispatch.DispatchStore.TakeBack | codex_feishu_bridge/codex/cli_dispatch.py:395-420 | Only an unacknowledged CLI or relay attempt is removed, with its attempt row |
| Dispatch.FindQueued | codex_feishu_bridge/codex/controller.py:304-334 | A queue entry counts only when the first ten pages name exactly one id |
| Dispatch.EntriesAre | codex_feishu_bridge/codex/controller.py:304-334 | The entries are those of the pages up to the first that names no other, or of the first ten, and there are none when one of these failed |
| Dispatch.ResubmittedOnlyAfterRollback | codex_feishu_bridge/codex/desktop_relay_dispatch.py:313-332 | Over all four paths, between two submissions of one message the first was taken back, and it went through the CLI or the relay |
| Dispatch.QueueAndDesktopOnce | codex_feishu_bridge/codex/controller.py:153-302 | A message submitted to the queue or the desktop is never submitted again |
| Dispatch.AcceptedIffTombstone | codex_feishu_bridge/codex/controller.py:275-293 | In every run a record is accepted or completed exactly when its message has a tombstone |
| Dispatch.InsertFailsIff | codex_feishu_bridge/codex/controller.py:181-221 | Inserting an attempt fails exactly for a known message with a different request; it never meets a leftover row |
| Dispatch.AcceptSucceedsIff | codex_feishu_bridge/codex/controller.py:275-293 | The accepting transaction succeeds exactly from bytes_sending: an already accepted queue record is refused by its own tombstone |
| DispatchOutcomes.StepTells | codex_feishu_bridge/codex/controller.py:181-293 | What one step of any of the four paths does to every message's record, attempt and tombstone, to the call in progress and to what is sent or taken back |
| DispatchOutcomes.SettledIff | codex_feishu_bridge/codex/controller.py:336-374 | In every run a message is accepted or completed exactly when an action of the run accepted it, and completed exactly when its turn was then seen to end |
| DispatchOutcomes.UnknownIff | codex_feishu_bridge/codex/controller.py:243-249 | Its outcome is unknown exactly when it was lost in some call and nothing accepted it since |
| DispatchOutcomes.RecordedIff | codex_feishu_bridge/codex/cli_dispatch.py:395-420 | It has a record exactly when one was begun and not taken back since |
| DispatchOutcomes.AcknowledgedIsKept | codex_feishu_bridge/codex/cli_dispatch.py:395-420 | What was acknowledged is never taken back: its record keeps path and request in every continuation |
| DispatchOutcomes.SubmittedUnderFence | codex_feishu_bridge/codex/controller.py:223-233 | In every run each submission was begun, and then fenced by a service that held its token, within the one call that submits it |
| OutboxCards.MarkdownCardBody | codex_feishu_bridge/feishu/outbound.py:104-157 | The card builder: visible text, one slot per active image at its first occurrence, none without text or images or over the size limit |
| OutboxCards.SlotsMatchImages | codex_feishu_bridge/feishu/outbound.py:104-157 | Slots are numbered 1 to n in document order, one for each of n distinct active images |
| OutboxCards.EveryActivePictureIsShown | codex_feishu_bridge/feishu/outbound.py:125-144 | Every active picture of the document has a slot |
| OutboxCards.FillFailsIff | codex_feishu_bridge/feishu/outbound.py:925-941 | Filling a card fails exactly when some slot has no key |
| OutboxCards.BuiltCardIsSentWhole | codex_feishu_bridge/feishu/outbound.py:906-943 | A built card with all keys is sent with every one of them, in document order |
| OutboxCards.CardTellsDocument | codex_feishu_bridge/feishu/outbound.py:125-144 | Element by element the card is the document: the visible text of prose and of captions, and at the first occurrence of each active picture the slot with its number |
| OutboxCards.NoCardIff | codex_feishu_bridge/feishu/outbound.py:146-157 | There is no card exactly when no part leaves words, no picture is active, or the body is larger than 18,000 |
| OutboxCards.FilledElementwise | codex_feishu_bridge/feishu/outbound.py:925-941 | What is sent has each text and each image's key in its place |
| Outbox.ProviderOutbox.LeaseOutbox | codex_feishu_bridge/runtime_storage.py:774-810 | Expires old leases and leases the chosen row |
| Outbox.ChooseIsChoice | codex_feishu_bridge/runtime_storage.py:788-797 | The choice waits and is due, with everything queued earlier for its turn in one of the five final states, and of all such rows has the highest priority and then is the oldest; none exactly when there is no such row |
| Outbox.OneChoice | codex_feishu_bridge/runtime_storage.py:788-797 | At most one row satisfies that description |
| Outbox.ProviderOutbox.FinishOutbox | codex_feishu_bridge/runtime_storage.py:812-847 | Finishes a row only for the holder of its lease |
| Outbox.ProviderOutbox.StageUploaded | codex_feishu_bridge/runtime_storage.py:746-772 | Stores a missing key and releases the row, or restores everything |
| Outbox.ProviderOutbox.ReconcileUnknown | codex_feishu_bridge/feishu/reconciliation.py:38-156 | An unknown send is retried inside the uuid window, confirmed by exactly one match, or indeterminate |
| Outbox.ProviderOutbox.FindMessages | codex_feishu_bridge/feishu/reconciliation.py:69-144 | The search goes on exactly while every page is there, announces more and names a new non-empty token; the first page that does not decides: found with the matches of all pages so far when it announces no more, given up otherwise |
| Outbox.SearchNeedNotEnd | codex_feishu_bridge/feishu/reconciliation.py:134-144 | A provider that alternates between two tokens keeps the search going for any number of pages |
| Outbox.ProviderOutbox.SuppressWaiting | codex_feishu_bridge/service.py:750-757 | Retires waiting rows that the condition hits and no others |
| Outbox.ProviderOutbox.RunWorkerOnce | codex_feishu_bridge/feishu/outbound.py:689-1244 | One worker pass, with crashes after the lease, the upload and the send; which answer leaves which state is stated by the OutboxOutcomes rows |
| OutboxRuns.NextKeepsRows | codex_feishu_bridge/runtime_storage.py:774-847 | Every writer keeps finished rows finished, turns in order and keys written once |
| OutboxRuns.OneInFlightPerTurn | codex_feishu_bridge/runtime_storage.py:788-797 | In every run, when a row is leased or unknown every earlier row of its turn is finished and no other row of the turn is in flight |
| OutboxRuns.ConfirmedInOrder | codex_feishu_bridge/runtime_storage.py:788-847 | Confirmations within a turn happen in increasing order, each row at most once |
| OutboxRuns.FinishedStaysFinished | codex_feishu_bridge/runtime_storage.py:828-847 | A finished row never changes state again in any continuation |
| OutboxRuns.NeverDeadlocks | codex_feishu_bridge/runtime_storage.py:774-810 | With all rows due and none in flight, a lease succeeds exactly when something is unfinished |
| OutboxRuns.LeasesTheChoice | codex_feishu_bridge/runtime_storage.py:788-810 | What is leased is the one documented choice among the rows after expiry |
| OutboxRuns.UploadsConverge | codex_feishu_bridge/feishu/outbound.py:864-905 | A successful upload writes the next missing key and lowers the number of missing keys by one; nothing is sent in that pass |
| OutboxRuns.CardsAreSentWhole | codex_feishu_bridge/feishu/outbound.py:906-943 | In every run no card is given up for a missing key, every sent card shows all its images, and the content built from a row's body, a card or an uploaded file above all, is the same in every send of the row |
| OutboxOutcomes.StepHappens | codex_feishu_bridge/feishu/outbound.py:689-1244 | One action brings each row to the state that what happened to it calls for (answer, route, upload, lapse of the lease, finish, reconciliation, suppression), and leaves it as it is when nothing did |
| OutboxOutcomes.LastHappeningDecides | codex_feishu_bridge/runtime_storage.py:774-847 | In every run a row is in the state that the last thing that happened to it calls for, with the message id that thing gave |
| OutboxOutcomes.ConfirmedIff | codex_feishu_bridge/feishu/outbound.py:1032-1050 | In every run a row is confirmed exactly when the provider reported its delivery, the holder of its lease finished it so, or after the window the history named exactly one match; its message is that id |
| OutboxOutcomes.RefusedIff | codex_feishu_bridge/feishu/outbound.py:1217-1229 | In every run a row is final_undelivered exactly when a final answer was refused or finished so by the holder of its lease, and permanent exactly when another row was refused, its binding was missing, it was suppressed or finished so |
| OutboxOutcomes.UnknownIff | codex_feishu_bridge/feishu/outbound.py:1199-1216 | A row becomes unknown exactly by a send without an answer (titles apart), by its lease running out, or by being finished so |
| OutboxOutcomes.UnknownWaits | codex_feishu_bridge/feishu/reconciliation.py:38-66 | An unknown row is not leased again, in any continuation, before it was reconciled |
| OutboxDeliveries.SendsIff | codex_feishu_bridge/feishu/outbound.py:906-1031 | A step sends exactly the row that a pass takes, and only when the process lives on, the task is bound and no key is missing; the content carries its body |
| OutboxDeliveries.BodyStep | codex_feishu_bridge/feishu/outbound.py:864-905 | A row's body changes exactly where an upload gave a key: at the first place without one, or where the holder of its lease staged it |
| OutboxDeliveries.SendsWhatWasEnqueued | codex_feishu_bridge/feishu/outbound.py:906-1031 | In every run each send carries what one enqueueing asked for: its text, its card element by element, or its file under the stored key |
| Approvals.ApprovalStore.IssueApproval | codex_feishu_bridge/security/approvals.py:69-158 | Issues once per server request; a repeated identity is reported or refused |
| Approvals.ApprovalStore.Commit | codex_feishu_bridge/security/approvals.py:160-254 | Consumes the token and returns the pinned answer of the decision, or changes nothing; CommitSucceedsIff says when |
| Approvals.ApprovalStore.PrepareResponse | codex_feishu_bridge/security/approvals.py:256-273 | Stores the exact response hash once, from action_committed only |
| Approvals.ApprovalStore.RecordResponseResult | codex_feishu_bridge/security/approvals.py:275-283 | Records the outcome from response_sending only |
| Approvals.ApprovalStore.ObserveResolution | codex_feishu_bridge/codex/approval_gateway.py:338-357 | A resolution notice resolves a sending or unknown request |
| Approvals.ApprovalStore.EmergencyStop | codex_feishu_bridge/security/emergency.py:36-74 | Cancels what is issued or only committed, consumes every token and raises the generation |
| Approvals.RunKeepsInv | codex_feishu_bridge/codex/approval_gateway.py:270-299 | Over all interleavings of threads, stops, aborts and crashes each approval is in at most one thread's hands |
| Approvals.AtMostOneResponse | codex_feishu_bridge/codex/approval_gateway.py:270-299 | In every run each approval has at most one response on the wire, with the stored hash, and was not cancelled |
| Approvals.HashIsStoredFirst | codex_feishu_bridge/security/approvals.py:256-273 | Whenever a response goes out its hash is already stored and the approval is not cancelled |
| Approvals.ResponsesArePinned | codex_feishu_bridge/security/approvals.py:224-229 | Every response on the wire is the pinned answer to the decision that consumed the token |
| Approvals.UnconsumedIffIssued | codex_feishu_bridge/security/approvals.py:230-243 | A token is unconsumed exactly while its approval is issued |
| Approvals.StatesFollowTheTable | codex_feishu_bridge/storage.py:47-73 | Every state change of every step is an edge of the declared table and a stored hash never changes |
| Approvals.NeverExpired | codex_feishu_bridge/security/approvals.py:188-195 | No run reaches expired: the update is taken back by its own raise |
| Approvals.OneResponsePerRequestIff | codex_feishu_bridge/codex/approval_gateway.py:60-149 | In every run a server request gets at most one decision, and at most one response exactly when no action of the run met the refusal guard for it, or a single one did and no decision about it went out |
| Approvals.ConsistentRequestsAreAnsweredOnce | codex_feishu_bridge/codex/approval_gateway.py:60-149 | When all requests with one id are served, offer decisions and time, and agree in subject and session, that id is never refused and gets at most one response in any run |
| Approvals.RefusedIff | codex_feishu_bridge/codex/approval_gateway.py:69-149 | A step answers a request with an error exactly when its method or parameters are not served, it offers no decision or time, or the approval issued for its id has another subject or session |
| Approvals.RefusalsAreRefusedActions | codex_feishu_bridge/codex/approval_gateway.py:69-149 | In every run the error answers to a request id are as many as the actions that met that guard when they happened |
| Approvals.ConflictIsAnsweredTwice | codex_feishu_bridge/codex/approval_gateway.py:131-149 | Any conflicting repetition of a pending request gives a run in which that id is refused and decided |
| Approvals.StopIsFinal | codex_feishu_bridge/security/emergency.py:52-60 | After a stop nothing that was issued or only committed is ever answered |
| ApprovalDecisions.CommitSucceedsIff | codex_feishu_bridge/security/approvals.py:160-254 | A decision succeeds exactly when the token is stored and unconsumed, its time is not over, all eleven pinned values agree, the decision was offered and the approval is issued |
| ApprovalDecisions.CommitErrors | codex_feishu_bridge/security/approvals.py:175-243 | Which error a refused decision gets, exactly when |
| ApprovalDecisions.RowsTellTheirIssue | codex_feishu_bridge/security/approvals.py:116-148 | In every run each action row tells the one action that issued it, with the card that was delivered since |
| ApprovalDecisions.ResponsesWereDecided | codex_feishu_bridge/codex/approval_gateway.py:250-299 | In every run each response on the wire answers one action that decided its approval before the issuing time plus ttl, in the context pinned at issue and card delivery, with a decision that issue offered |
| ApprovalStates.StepPuts | codex_feishu_bridge/security/approvals.py:160-283 | The state one action puts each approval in, and that every other approval stays where it is |
| ApprovalStates.EndingsTellTheRun | codex_feishu_bridge/codex/approval_gateway.py:338-357 | In every run an approval is cancelled exactly when a stop met it issued or committed, rejected exactly when its answer was refused, and resolved exactly when its answer was accepted or its request was reported as resolved while an answer was out |
| ApprovalStates.GenerationCountsStops | codex_feishu_bridge/security/emergency.py:36-74 | The kill generation counts the stops of the run |
| Jcs.Quote | codex_feishu_bridge/security/jcs.py:22-49 | The escaping loop, refusing exactly the strings with a lone surrogate |
| JcsUnique.DecodeEscape | codex_feishu_bridge/security/jcs.py:32-47 | Every escaped code point is read back from the front of any text that begins with it |
| JcsUnique.QuotedSplit | codex_feishu_bridge/security/jcs.py:29-49 | Quoted strings decode uniquely, whatever follows |
| JcsUnique.SortKeyInjective | codex_feishu_bridge/security/jcs.py:100-102 | Different keys have different UTF-16 sort keys |
| JcsUnique.SortedKeeps | codex_feishu_bridge/security/jcs.py:121-124 | Members come out strictly ascending in UTF-16 order, none lost or added |
| JcsUnique.TextIsCompleteInvariant | codex_feishu_bridge/security/jcs.py:105-125 | Two values have the same canonical text exactly when they are equal with objects taken as maps and tuples as lists |
| JcsForm.EscapeForms | codex_feishu_bridge/security/jcs.py:32-47 | Seven code points have short escapes, the other control characters are written in hexadecimal, all others stand for themselves |
| JcsForm.TextIsPrintable | codex_feishu_bridge/security/jcs.py:29-49 | Canonical text holds no raw control character |
| JcsForm.StringEndsAtItsQuote | codex_feishu_bridge/security/jcs.py:29-49 | The first quotation mark that is not escaped ends a string, whatever follows it |
| JcsForm.ScalarForms | codex_feishu_bridge/security/jcs.py:55-58 | Null and booleans by name, integers in decimal without leading zeros, read as themselves |
| JcsForm.IntegerIsCanonicalIff | codex_feishu_bridge/security/jcs.py:55-58 | Integers are accepted exactly inside of plus and minus two to the 53rd |
| JcsOrder.AheadIff | codex_feishu_bridge/security/jcs.py:100-102 | One key comes before another exactly when it does by UTF-16 code units |
| JcsOrder.MembersComeInOrder | codex_feishu_bridge/security/jcs.py:118-124 | The members of a dictionary come out in that order, each once and none besides |
| JcsOrder.ArrayForms | codex_feishu_bridge/security/jcs.py:116-117 | One more item adds a comma, unless it is the first, and its text before the closing bracket |
| JcsOrder.ObjectForm | codex_feishu_bridge/security/jcs.py:122-124 | A member is its key, a colon and its value in braces |
| JcsNumber.Number | codex_feishu_bridge/security/jcs.py:59-97 | The layout steps on repr's coefficient and exponent |
| JcsNumber.NumberKeepsValue | codex_feishu_bridge/security/jcs.py:59-97 | The printed text denotes the same rational as coefficient and exponent, in all four ranges |
| JcsNumber.OneReading | codex_feishu_bridge/security/jcs.py:59-97 | A number text can be cut into integer part, fraction and exponent in at most one way, so it denotes at most one decimal |
| JcsNumber.LayoutIsEcmaIff | codex_feishu_bridge/security/jcs.py:81-96 | The layout is ECMAScript's exactly when no trailing zero would show behind the point |
| JcsNumber.ReprComesOutAsEcma | codex_feishu_bridge/security/jcs.py:59-97 | Everything repr prints for a non-zero float comes out in the layout of section 3.2.2.3 of RFC 8785 |
| Audit.AuditChain.Append | codex_feishu_bridge/security/audit.py:37-80 | Adds the row bound to the last HMAC, or changes nothing; AppendKeepsChain says when it fails |
| Audit.CleanIffChecked | codex_feishu_bridge/security/audit.py:37-45 | The check finds every forbidden field exactly when the tuples it does not look into hold none |
| Audit.TupleHidesField | codex_feishu_bridge/security/audit.py:37-45 | A forbidden field in a dictionary in a tuple passes the check |
| Audit.AuditChain.Verify | codex_feishu_bridge/security/audit.py:82-99 | Returns the row count exactly for an unbroken chain, and otherwise the fault of the first row that breaks it |
| Audit.LastHmacFixesTable | codex_feishu_bridge/security/audit.py:82-99 | Two tables that verify and end in the same HMAC are the same table |
| Audit.HmacsAreDistinct | codex_feishu_bridge/security/audit.py:63-80 | No two rows of an unbroken chain share an HMAC |
| Audit.AppendKeepsChain | codex_feishu_bridge/security/audit.py:55-80 | An append keeps the chain unbroken, and fails exactly when the event holds a forbidden field outside tuples, event or time has no canonical text, or the sequence number is no safe integer |
| Audit.AppendsVerify | codex_feishu_bridge/security/audit.py:55-99 | Any number of acceptable appends makes a table that verifies with that count |
| Audit.EqualHashesEqualEvents | codex_feishu_bridge/security/audit.py:57-69 | Two appends that give the same record hash had the same sequence, time and previous HMAC, and the same event up to the order of members and the kind of array |
| Audit.LastHmacFixesEvents | codex_feishu_bridge/security/audit.py:55-80 | Two tables built by appends that end in the same HMAC hold the same events, row by row |
| Connection.ResponseTable.LookUp | codex_feishu_bridge/codex/connection.py:52-56 | The reader's lock section: finds the waiter and forgets an expired id |
| Connection.ResponseTable.Expire | codex_feishu_bridge/codex/connection.py:99-105 | The requester's lock section: remembers the id and evicts beyond 1024 |
| Connection.RunKeepsInv | codex_feishu_bridge/codex/connection.py:33-112 | Over all interleavings, however often the server answers an id, the memory holds those of the last 1024 timeouts that got no response since, and waiters belong to open calls |
| Connection.LateResponseFailsIff | codex_feishu_bridge/codex/connection.py:51-67 | The first response to a sent request fails the connection exactly when its call is over and at least 1024 requests timed out after it |
| Connection.ResponseFailsIff | codex_feishu_bridge/codex/connection.py:51-67 | Any response, to whatever id and however often, fails the connection exactly when no open call has the id and it is not one that timed out, with fewer than 1024 timeouts after it and no response since |
| Connection.ResponsesReachTheirCall | codex_feishu_bridge/codex/connection.py:84-110 | A call is only answered with a response to its own id, and the reader waits for room in a queue only with a second response to one id |
| Connection.ResponseIsDelivered | codex_feishu_bridge/codex/connection.py:51-67 | A response that comes while its call waits, with nothing in its queue yet, becomes the answer of the call |
| Connection.EveryCallCanEnd | codex_feishu_bridge/codex/connection.py:90-112 | From every reachable state each call can end by its own steps alone, and then nobody waits for its id |
| Routing.Router.RouteReply | codex_feishu_bridge/feishu/inbound.py:311-379 | The route of a reply in topic-group mode and what it teaches about topics |
| Routing.Router.Ingest | codex_feishu_bridge/feishu/inbound.py:135-292 | One transaction per message: echo, duplicate, conflict, or a routed and recorded message; which is which is stated by the RoutingOutcomes rows |
| Routing.Router.SuppressIfOutboundEcho | codex_feishu_bridge/feishu/inbound.py:294-309 | A callback that raced the bridge's own reply is taken out of dispatch |
| Routing.ReplyKeeps | codex_feishu_bridge/feishu/outbound.py:1046-1067 | Recording a confirmed reply, first or again, keeps every recorded chain |
| Routing.RecordAnchorKeeps | codex_feishu_bridge/feishu/outbound.py:1102-1112 | Recording an anchor fits the replies that already point at it |
| Routing.RootsAreAnchors | codex_feishu_bridge/feishu/inbound.py:263-281 | In every run each recorded reply has its task's confirmed anchor as root, in its chat, and that anchor has no root |
| Routing.RoutedRepliesGoHome | codex_feishu_bridge/feishu/inbound.py:311-379 | A routed reply goes to the one task whose anchor stands at the top of the chain of replies above it |
| Routing.AcceptedRepliesStayHome | codex_feishu_bridge/feishu/inbound.py:263-281 | The same of every message ever accepted as a routed reply or control command |
| RoutingOutcomes.RoutedIff | codex_feishu_bridge/feishu/inbound.py:311-379 | A reply that hangs below its task's anchor in the task's chat is routed exactly when the task is opted in and in topic mode, the topic is given, and no recorded topic of task, root or parent differs |
| RoutingOutcomes.TopicIsLearned | codex_feishu_bridge/feishu/inbound.py:368-378 | After a routed reply, a reply to the same messages in another topic is not routed, unless the task has the empty topic |
| RoutingOutcomes.AcceptedIff | codex_feishu_bridge/feishu/inbound.py:135-292 | A message is accepted exactly when its chat is authorized, it is no reply of the bridge, was not seen before, and is not recorded already when it is routed |
| RoutingOutcomes.RepeatedIff | codex_feishu_bridge/feishu/inbound.py:143-152 | A message that was seen before is a duplicate or a conflict exactly as chat and content agree |
| RoutingOutcomes.MessagesAreTold | codex_feishu_bridge/feishu/inbound.py:167-206 | In every run each recorded message tells the action that received it: with a target it is control exactly when it was a command and no subscription reply, routed exactly when it was neither, and an echo exactly when it was that reply or was suppressed later |
| RoutingOutcomes.OwnRepliesAreEchoes | codex_feishu_bridge/feishu/inbound.py:294-309 | A reply that the bridge recorded is an echo whenever it comes in later, and is taken out of dispatch when it came before |
| RoutingOutcomes.NextNumbers | codex_feishu_bridge/feishu/inbound.py:153-166 | An accepted message gets the next number and no number changes; numbers from 1 without gap or repetition stay so |
| RoutingOutcomes.RunNumbers | codex_feishu_bridge/feishu/inbound.py:153-166 | The same over every run |
| RoutingOutcomes.ReplyIsRecorded | codex_feishu_bridge/feishu/outbound.py:1046-1067 | A delivered reply gets its row, with parent, root and topic, exactly when what it answers belongs to its task and chat |
| RoutingOutcomes.AnchorIsRecorded | codex_feishu_bridge/feishu/outbound.py:1090-1112 | The first delivered anchor becomes the task's anchor with its topic, and gets its row in a step of its own |
| Markdown.MarkdownTargetEnd | codex_feishu_bridge/feishu/formatter.py:52-94 | End of a link target and the resume position, in no more steps than positions passed |
| Markdown.TargetBounds | codex_feishu_bridge/feishu/formatter.py:52-94 | A target ends with a parenthesis and stays on its line |
| Markdown.FindLinks | codex_feishu_bridge/feishu/formatter.py:97-134 | The stack scanner finds the links of the stackless reference, and all its loops and target scans together take at most as many steps as the text is long |
| Markdown.LinksAreDisjoint | codex_feishu_bridge/feishu/formatter.py:97-147 | The replaced spans are links, disjoint and increasing |
| MarkdownMeaning.TargetIff | codex_feishu_bridge/feishu/formatter.py:52-94 | A target ends where its unescaped parentheses are balanced for the first time, on its line, or after a non-empty part in angle brackets; without a target scanning goes on behind the line, or behind the angle bracket that ended it |
| MarkdownMeaning.FoundIff | codex_feishu_bridge/feishu/formatter.py:97-134 | For every span: it is found exactly when it is a label (no image's, not empty, no unescaped bracket in it, a parenthesis behind it) with a target, and no label looked at before takes up its place |
| Markdown.ReplaceMarkdownLinks | codex_feishu_bridge/feishu/formatter.py:149-159 | The pieces between and the replacements of the spans, in linear work |
| Markdown.OutsideIsKept | codex_feishu_bridge/feishu/formatter.py:149-159 | Every character outside the spans is kept |
| Markdown.OutsideKeepsOrder | codex_feishu_bridge/feishu/formatter.py:149-159 | Kept characters stay in their order |
| Markdown.MarkdownImages | codex_feishu_bridge/feishu/images.py:48-80 | The image scanner finds the images of the reference, and its search, label scans and target scans together take at most as many steps as the text is long |
| Markdown.ImagesAreDisjoint | codex_feishu_bridge/feishu/images.py:48-80 | Image spans are disjoint, increasing, and delimited as images |
| MarkdownMeaning.ImageFoundIff | codex_feishu_bridge/feishu/images.py:48-80 | For every span: it is found exactly when an image begins there, its label ends at the first unescaped bracket, a target follows, and no image looked at before takes up its place |
| Utf8Chunks.Split | codex_feishu_bridge/feishu/formatter.py:197-215 | Fails exactly for a budget that is not positive or too small for a character; otherwise the chunks are the text, fit, are not empty unless the text is, and are as few as possible |
| Utf8Chunks.FullIsShortest | codex_feishu_bridge/feishu/formatter.py:203-212 | No split of the text into fitting pieces has fewer pieces than greedily filled chunks |
| Utf8Chunks.BytesAreEncoded | codex_feishu_bridge/feishu/formatter.py:203-212 | What is counted against the budget is the length of the text encoded in UTF-8 |
| RateLimit.TokenBucket.Delay | codex_feishu_bridge/feishu/rate_limit.py:23-32 | Refills, and asks to wait exactly when the amount is not there, for as long as it takes to flow in |
| RateLimit.TokenBucket.Consume | codex_feishu_bridge/feishu/rate_limit.py:34-37 | Takes the amount or refuses and changes nothing |
| RateLimit.WaitingIsEnoughIff | codex_feishu_bridge/feishu/rate_limit.py:23-32 | After a refused look waiting makes the amount available exactly when it refills what was missing, and no wait does for more than the capacity |
| RateLimit.RateLimiter.LongestDelay | codex_feishu_bridge/feishu/rate_limit.py:64-66 | Refills each bucket of the call; the longest wait is none exactly when every bucket has a token |
| RateLimit.RateLimiter.ConsumeEach | codex_feishu_bridge/feishu/rate_limit.py:67-69 | After such a look no bucket refuses its token |
| RateLimit.RateLimiter.Wait | codex_feishu_bridge/feishu/rate_limit.py:47-73 | Passes over the bucket objects until one is granted: the new balances and the granted pass are those that WaitTakesOneFromEach describes |
| RateLimit.GrantsAreBounded | codex_feishu_bridge/feishu/rate_limit.py:12-73 | In every run, for every bucket and window, the tokens granted are at most capacity plus refill over the window, and balances stay between 0 and capacity |
| RateLimit.WaitTakesOneFromEach | codex_feishu_bridge/feishu/rate_limit.py:47-73 | A wait is granted at the first pass at which every bucket of the call has a token, each balance being what it held before (a new bucket begins full) plus refill up to capacity; it takes one from each or from none, and other buckets stay |
| RateLimit.WaitedIsRun | codex_feishu_bridge/feishu/rate_limit.py:47-73 | The passes of a wait are steps of a run, and grant exactly one token of each bucket or none, so the bound on grants covers waits |

## Left out

- JSON decoding and the content normaliser: the reader gets a total classification of each record and a normalising function as parameters.
- The fields of an item beyond key, thread, turn, item and text; ignored-record counts are kept, timestamps are not.
- RolloutSpec.Fold: the separator characters in digest inputs and the JSON nesting limits are not modelled, because hashes are functions of the whole body.
- DesktopEcho: several rollout files for one thread, and a file whose size cannot be read at snapshot time, which the program then searches from its start.
- DesktopEcho.EchoStore.EnqueueEvent: does not model the client-id branch of the queue and CLI paths, because the uniqueness claim is about the desktop path; Dispatch has it as a step that accepts a record.
- DesktopEcho.EchoStore.ReconcileDelayedReturn: does not model relay submissions among the candidates, which match by a delegation envelope and can be taken back; Dispatch has their late acceptance as a step.
- DesktopText.LateEchoIsRecognisedIff: covers the messages without marker and tags, which the normaliser only strips of line ends; image references, envelopes and attachment labels are part of the normalising function that DesktopReturns takes as a parameter.
- CliSearch: the pattern for leading image tags is a parameter, and the abandoned-prestart search over the whole file has only its time bound.
- Dispatch: fencing-token issue, expiry of old ingress rows, retry delays and acknowledgement messages.
- Outbox.ProviderOutbox.RunWorkerOnce: does not model the user-message sender and its fallback text, dead letters, circuit breakers, ancestry and selection side effects, because they do not touch the outbox row.
- Outbox: image, file and rich-image staging are one operation on the row's missing keys; upload attempt counters are left out.
- OutboxRuns: task-title projection and its repair, which update two tables that reconciliation does not keep in step.
- Approvals: requests without identity or without a bound thread, which end the call without an answer; request ids are compared as text; session grants created on resolution, and the quiescing and stopped process states.
- Routing: identity epochs, attachments, task selection, and P2P control commands.
- Connection: server requests and notifications, and closing.
- Jcs: object keys that are not strings and values of other Python types are one rejected value; floats are treated in JcsNumber only.
- JcsNumber.Number: does not model parsing repr's exponent, because it is Python's own integer conversion.
- Audit: storing and comparing hexadecimal strings in constant time; the sequence number is bounded by the largest safe integer because the envelope is then refused.
- Markdown.ReplaceMarkdownLinks: what is shown for a link (label unescaping, URL scheme test) is a parameter, because it does not influence the spans.
- Markdown: whitespace clean-up after the replacement, citations and redaction; the JSON size check of formatted chunks.
- RateLimit.RateLimiter.Wait: the buckets are objects in one map instead of two dictionaries and a field, and sleeping between passes is replaced by a list of clock readings, because Wait itself has no bound on its passes.
- Feishu HTTP, lark-cli, UI automation, subprocesses, configuration, logging and Windows specifics: every foreign call is a step with any of its outcomes.
