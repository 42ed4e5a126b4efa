# Cedia: verified models of the session host and its algorithms

Cedia runs OMP sessions for its windows and devices. This project models the parts of it that must not go
wrong and proves what they promise. `dafny verify dfyconfig.toml` checks everything.

## What is modelled

**The durable command host.** `Journal` holds the tables of the store: sessions and commands, the claim that
decides between a new command, a replay and a conflict, the status graph and startup recovery. `CanonicalJson`
is the serializer whose injectivity that decision rests on, with the JSON parser of RFC 8259 (sections 4, 5
and 7) beside it; `CanonicalText` tells its text character by character. `HostSteps` is the session host as a step machine: one event per stretch of code between two
`await`s, which JavaScript runs without interruption; OMP, its client, the question broker, callers, crashes
and reopening choose the events. `HostOutcomes` and `HostCalls` tell what each event does, field by field,
without the functions of the machine. `HostInvariant` and `HostPreservation` prove one invariant of all reachable
states, `HostEffects` says what each event leaves alone, and `HostTheorems`, `HostTurns`, `HostRecovery` and
`HostReplays` draw the conclusions about whole runs. `Host` is the host as an object that updates its maps,
its runtime objects and its store in place; each method is proved to be a step of the machine.

**Event paging** (`EventPages`): a session's log, the store's page, the router's byte budget, the slices of
large frames and the client loop that follows the cursor. **Response cache** (`ResponseChunks`).

**CSS scoping**: `CssScanner`, `CssSelectors` and `CssScope` are the scanner with its scope stack, the selector
splitter and rewriter, and the guard that rescans the result; `CssGuard` says when that guard is sound,
`CssMeaning` which selectors come out, `CssReading` what comments, strings, brackets and blocks hide, and
`BuildCss` holds the loops.

**Editor ownership**: `NativeDisk` is the guarded file transaction under short reads, short writes and
failures; `Editors`, `EditorOutcomes` and `EditorConnections` the delivery protocol and the registry of
roots; `NativeEditor` the bridge that must never write to disk what an editor owns.

**Terminals**: `Terminals` folds frames into screens with delayed engine load and eviction, `TerminalScreens` tells
what a screen was fed; `CheckpointRuns` merges cells into styled runs. **PNG**: `PngScanlines` reconstructs scanlines filtered as in RFC 2083,
sections 6.2 to 6.6.

## What the proofs found

- A session in `recovery_required` can leave it without a reconciliation: `startSession` may drop a runtime
  whose client is still closing, and a late `agent_start` or `agent_end` of it writes the session status
  (`HostLateFrame.LateFrameEndsRecovery`). `HostRecovery.RecoveryEndsExactlyBy` gives the exact condition.
- The host does ask for status changes the store refuses, in exactly the cases of
  `HostTheorems.RefusedExactlyWhen`. Concrete runs are in `HostRefusals`: a stop overtakes an answer, OMP fails
  a command with an empty error, and an error text is over the limit.
- A failed `register` is mutation-free, as its comment says, although pruning comes before the last capacity
  check (`Editors.FailedRegisterChangesNothing`).
- `guard` can reject what `scopeCss` wrote for a `:root` selector that closes too many brackets
  (`CssExamples.UnclosedRootIsRejected`).
- `guard` accepts scoped stylesheets that leak when the first selector it rejects is empty: `{}.a{b{}}` is one
  (`CssExamples.EmptySelectorHidesALeak`), and a `:root` selector with too many brackets can spill an empty
  selector that the input does not have (`CssExamples.SpilledEmptySelectorHidesALeak`).
  `CssGuard.GuardAcceptsExactlyWhen` and `CssGuard.ScopedIsAcceptedBySelectors` give the exact conditions; without
  empty selectors the guard accepts if and only if nothing leaks.

## Assumptions

A store transaction is one atomic durable step. SHA-256 is injective: a digest is the text it digests. Clocks,
random ids, resolved paths and outcomes of system calls are parameters. Numbers in JSON are integers. The
error of a failed or rejected call is an `Error`, whose text begins with the name of its class and so is not
empty; only OMP's own error texts can be. Strings
are sequences of UTF-16 code units in `CanonicalJson` and `EventPages`, and of characters elsewhere.

## Model

| member | source | states |
|---|---|---|
| `CanonicalJson.BeforeIsStrict` | apps/host/src/store.ts:261 | the code-unit order in which keys are sorted is total and irreflexive |
| `CanonicalJson.SortFieldsSorts` | apps/host/src/store.ts:254-267 | sorting the fields of an object keeps exactly its fields and puts the keys in strictly ascending order |
| `CanonicalJson.SortedKeysAreUnique` | apps/host/src/store.ts:254-267 | two sorted field lists with the same fields are the same list, so the order in which properties were added is forgotten |
| `CanonicalJsonTheorems.StringReadsBack` | apps/host/src/store.ts:201-202 | a quoted string, with every escape including lone surrogates, parses back to the string, whatever follows it |
| `CanonicalJsonTheorems.NumberReadsBack` | apps/host/src/store.ts:205-207 | an integer's text parses back to the integer, with its sign |
| `CanonicalJsonTheorems.ValueReadsBack` | apps/host/src/store.ts:198-273 | at any nesting depth the text of a value, followed by a delimiter, parses to the normal form of the value and leaves the rest |
| `CanonicalJsonTheorems.CanonicalTextReadsBack` | apps/host/src/store.ts:195-274 | `canonicalizeJson` followed by JSON parsing gives the value with its keys sorted |
| `CanonicalJsonTheorems.CanonicalTextDecidesEquality` | apps/host/src/store.ts:195-274 | two values have the same canonical text if and only if they are equal as JSON with object key order ignored |
| `CanonicalJsonTheorems.NormalizeIsIdempotent` | apps/host/src/store.ts:254-267 | sorting the keys of a value whose keys are sorted changes nothing, at every depth |
| `CanonicalJsonTheorems.NormalTextIsCanonical` | apps/host/src/store.ts:254-267 | a value and its normal form have the same canonical text |
| `CanonicalJsonTheorems.ColumnsReadBack` | apps/host/src/store.ts:316-328 | a stored JSON column decodes, passes the second validation, and has the canonical text it was stored with |
| `CanonicalText.KeysByCodeUnit` | apps/host/src/store.ts:261 | a key comes before another when it is smaller at the first unit where they differ, or is a beginning of it |
| `CanonicalText.ShortEscapes` | apps/host/src/store.ts:201-202 | the seven short escapes of `JSON.stringify` |
| `CanonicalText.OtherUnits` | apps/host/src/store.ts:201-202 | other control characters and lone surrogates become `\uXXXX` in lower case with their value, and no other unit is escaped |
| `CanonicalText.QuotedText` | apps/host/src/store.ts:201-202 | a string is quoted unit by unit, surrogate pairs as they are |
| `CanonicalText.LiteralTexts` | apps/host/src/store.ts:198-207 | the texts of `null`, `true` and `false` |
| `CanonicalText.ArrayText` | apps/host/src/store.ts:222-243 | an array is its elements with commas between them, in brackets, without white space |
| `CanonicalText.ObjectText` | apps/host/src/store.ts:254-267 | an object is its fields in the order of their keys, with colons and commas, in braces, without white space |
| `CanonicalText.RefusedExactly` | apps/host/src/store.ts:195-274 | a value is canonicalized if and only if no number that is not finite, no undefined and no unsupported value is in it, at any depth |
| `JournalTheorems.HashDecidesSameness` | apps/host/src/store.ts:277-285 | two requests have the same payload hash exactly when device, incarnation and kind are equal and the payloads are equal as JSON |
| `JournalTheorems.ClaimDecision` | apps/host/src/store.ts:785-818 | claiming an id that exists changes no table; it returns the stored row exactly when the request is the one that made it, and is a conflict otherwise |
| `JournalTheorems.NewClaim` | apps/host/src/store.ts:785-818 | a new id is claimed for its session with its kind, hash and first status, or refused for its payload or a missing session |
| `JournalTheorems.TransitionDecision` | apps/host/src/store.ts:847-892 | a status change is accepted along the five edges out of claimed and the four out of acknowledged, or when it changes nothing, with an error text of at most 16384 bytes and, for a failure, an error |
| `JournalTheorems.KindsAreSpelled` | apps/host/src/service.ts:71 | the special command kinds have the names the source gives them |
| `JournalTheorems.IdentityIsSpelled` | apps/host/src/store.ts:277-285 | what is hashed is an object of device id, incarnation, kind and payload under these names |
| `JournalTheorems.StoredPayloadRehashes` | apps/host/src/store.ts:277-328 | the payload column read back gives a request with the stored hash |
| `HostReplays.ReclaimsAreDecidedByTheCreatingRequest` | apps/host/src/service.ts:399-408 | at any later point of any run, a second request for an id is answered by the row as it then is, which has the kind of the request, exactly when it equals the creating request as JSON, else with a conflict, and changes nothing |
| `Journal.DurableStore.ClaimCommand` | apps/host/src/store.ts:785-818 | the claim transaction: the new tables and the decision are those of `Claim` |
| `Journal.DurableStore.TransitionCommand` | apps/host/src/store.ts:847-892 | a status change and its refusals: unfit error text, unknown row, final row, forbidden step, failure without an error |
| `Journal.DurableStore.ListPending` | apps/host/src/store.ts:839-845 | exactly the claimed and acknowledged commands of one session |
| `Journal.DurableStore.RecoverPending` | apps/host/src/store.ts:931-943 | startup recovery: a session requires recovery if and only if it was running, was in recovery or has an unfinished command; exactly the unfinished commands become unknown; everything else stays |
| `Journal.DurableStore.RequireRecovery` | apps/host/src/store.ts:937-941 | the loop over unfinished sessions changes the status of exactly those |
| `HostPreservation.StepKeepsInv` | apps/host/src/service.ts:257-652 | every event of the host, with any interleaving, keeps the invariant: legal rows, one send per command, pending commands owned by the registered runtime, the pending turn active, recovery without a runtime, explained refusals |
| `HostTheorems.RunKeepsInv` | apps/host/src/service.ts:257-652 | the invariant holds in every state of every run from an empty store, across losses, stops, crashes and reopening |
| `HostTheorems.OnlyTheCreatingCallSends` | apps/host/src/service.ts:394-420 | a command is handed to OMP's client or to the question broker only in the call that creates its row, and only through the live registered runtime of its session |
| `HostTheorems.AtMostOneSend` | apps/host/src/service.ts:394-483 | over a whole run at most one event sends a given (session, command id), whatever happens between |
| `HostTheorems.ReplayChangesNothing` | apps/host/src/service.ts:406-408 | a call whose command has a row leaves the whole host as it is |
| `HostOutcomes.FailureOutcome` | apps/host/src/service.ts:450-463 | a request that fails: the row becomes failed exactly for a rejection, not dispatched exactly for a timeout before dispatch, unknown exactly for any other failure; the turn stays active exactly when the outcome is unknown; a text over the limit changes neither |
| `HostOutcomes.AckOutcome` | apps/host/src/service.ts:433-449 | an acknowledgement: a turn is acknowledged and goes on unless no agent ran, everything else is complete; commands that change the session read it back; wire ids go when the outcome is known |
| `HostOutcomes.StateReadOutcome` | apps/host/src/service.ts:442-463 | after reading the state back the dispatch ends, and nothing of the row changes |
| `HostOutcomes.FrameOutcome` | apps/host/src/service.ts:584-631 | a frame, and all it does: session status, completion of the command whose request it answers or whose turn it ends, failure of it, or a fault |
| `HostCalls.CommandOutcome` | apps/host/src/service.ts:394-420 | a command call: who is refused, who is claimed and handed over with active turn and wire id, and who is not dispatched |
| `HostCalls.RespondOutcome` | apps/host/src/service.ts:465-477 | an answer: claimed and handed to the broker while the runtime is not closing, else not dispatched |
| `HostCalls.AnswerOutcomeIsStored` | apps/host/src/service.ts:477-482 | the stored status of an answer: completed, unknown or not dispatched exactly as the broker says, and unchanged when it was unknown already |
| `HostCalls.StartOutcome` | apps/host/src/service.ts:257-269 | a start gives up a registered runtime that is not live, is refused in recovery, and else is starting |
| `HostCalls.SpawnOutcome` | apps/host/src/service.ts:299-314 | a spawned runtime is connecting under the new incarnation |
| `HostCalls.StartingOutcome` | apps/host/src/service.ts:315-381 | a start connects its client and then watches its process |
| `HostCalls.StartFailedOutcome` | apps/host/src/service.ts:382-391 | a failed start unregisters its runtime and stops the session |
| `HostCalls.StopOutcome` | apps/host/src/service.ts:498-511 | a stop waits for a start, marks the runtime closing, or finds nothing to do |
| `HostCalls.StopFinishedOutcome` | apps/host/src/service.ts:512-522 | after the close the runtime is closed and unregistered, exactly the unfinished commands of the session are unknown, and it is stopped |
| `HostCalls.LostOutcome` | apps/host/src/service.ts:636-652 | a lost process leaves its session unregistered and in recovery with exactly its unfinished commands unknown, when it was the live one |
| `HostCalls.OwnerOutcome` | apps/host/src/service.ts:490-496 | reconciling makes a session in recovery stopped when it has no runtime; creating makes it idle; both are refused while the host closes |
| `HostCalls.NothingIsStuck` | apps/host/src/service.ts:257-652 | in every state each suspended call can go on with every outcome it may have, and each live client can send frames or end |
| `HostCalls.StartsGoOn` | apps/host/src/service.ts:315-391 | which steps a start in flight with a registered runtime may take next, told from whether it is given up and whether the client is connected |
| `HostCalls.StartsBegin` | apps/host/src/service.ts:271-315 | a start in flight may register a runtime or be refused one exactly while none is registered |
| `HostCalls.CallersAreFree` | apps/host/src/service.ts:257-522 | callers may call, and the process may crash, at any time |
| `HostCalls.RestartOutcome` | apps/host/src/store.ts:931-943 | a crash in any run leaves nothing but the store, in which exactly the sessions that were running, in recovery or had an unfinished command require recovery |
| `HostTheorems.HistoriesAreLegal` | apps/host/src/store.ts:998-1006 | in every run a row's history is claimed, perhaps acknowledged, then at most one final status; histories only grow, kind and hash stay, and a final row never changes |
| `HostTheorems.NoRuntimeNothingPending` | apps/host/src/service.ts:636-652 | a session without a runtime has no claimed or acknowledged OMP command |
| `HostTheorems.RefusedExactlyWhen` | apps/host/src/service.ts:422-483 | the host asks for a status change the store refuses if and only if an error text is over 16384 bytes, OMP's text of a failed response is empty, or a loss or stop marked an answer unknown while it was being sent |
| `HostRefusals.StopOvertakesAnAnswer` | apps/host/src/service.ts:465-483 | a run of nine events: while an answer is with the broker a stop marks it unknown, and the store then refuses both that it was sent and that it was not |
| `HostRefusals.UnfitErrorIsRefused` | apps/host/src/service.ts:602-617 | a run in which OMP fails a prompt with an empty or too long text: the change is refused, the row stays claimed and the runtime is faulted |
| `HostRefusals.LongErrorIsRefused` | apps/host/src/service.ts:450-459 | a run in which a rejection with a text over the limit is refused and the row stays claimed |
| `HostTurns.OneTurnAtATime` | apps/host/src/service.ts:413-463 | between two turns sent through one OMP process there is an event that ends the first and leaves no active command: a local-only acknowledgement, a failure other than one of unknown outcome, a result or error for its own request, or a terminal agent end |
| `HostTurns.StepEndsTurn` | apps/host/src/service.ts:413-463 | a step ends the active turn of a runtime if and only if it is one of these events, told by cause and row; every other step leaves it active |
| `HostTurns.PendingTurnIsActive` | apps/host/src/service.ts:413-416 | a claimed or acknowledged turn is the active command of the registered runtime it was handed to |
| `HostRecovery.StepLeavesRecovery` | apps/host/src/service.ts:490-496 | one step takes a session out of `recovery_required` if and only if it reconciles it or is a late agent frame of one of its runtimes |
| `HostRecovery.RecoveryLastsUntilReconciled` | apps/host/src/service.ts:271-273 | until it is reconciled a session in recovery keeps that status, has no runtime, is not starting, and nothing is sent for it, when no runtime was dropped with its client open |
| `HostRecovery.RecoveryEndsExactlyBy` | apps/host/src/service.ts:257-268 | without that proviso: in every run recovery ends exactly by a reconciliation or a late frame, and a late frame needs an earlier start that dropped a runtime whose client was open |
| `HostRecovery.NothingSentAt` | apps/host/src/service.ts:409-419 | no event sends anything for a session in recovery, in any run |
| `HostRecovery.CrashRequiresRecovery` | apps/host/src/store.ts:931-943 | a crash at any point leaves every session with a pending command in recovery, with that command unknown and not sent again |
| `HostRecovery.LossRequiresRecovery` | apps/host/src/service.ts:636-652 | losing a runtime leaves its session in recovery, unregistered, with exactly its pending commands turned unknown |
| `HostLateFrame.LateFrameEndsRecovery` | apps/host/src/service.ts:262-265 | a concrete run of nine events in which a late `agent_start` ends a recovery that nobody reconciled |
| `Host.CediaHost.Command` | apps/host/src/service.ts:394-420 | the method on the maps and runtime objects is the step `OnCommand` |
| `Host.CediaHost.DispatchAcknowledged` | apps/host/src/service.ts:433-449 | `#dispatch` from the acknowledgement on is the step `OnAck`, including an escaped refusal |
| `Host.CediaHost.Caught` | apps/host/src/service.ts:450-459 | the catch branch of `#dispatch` is the step of which `HostOutcomes.FailureOutcome` tells the row and the runtime |
| `Host.CediaHost.Respond` | apps/host/src/service.ts:465-477 | answering a question up to the broker is the step `OnRespond` |
| `Host.CediaHost.ResponseSettled` | apps/host/src/service.ts:477-482 | recording the broker's outcome is the step `OnAnswered` |
| `Host.CediaHost.Receive` | apps/host/src/service.ts:584-618 | a frame from OMP is the step `OnFrame`, with a fault when a request is refused |
| `Host.CediaHost.Complete` | apps/host/src/service.ts:620-628 | completing a command clears it from the runtime and forgets its wire ids |
| `Host.RuntimeObject.ForgetWireCommand` | apps/host/src/service.ts:629-631 | the loop removes exactly the wire ids of one command |
| `Host.CediaHost.StartSession` | apps/host/src/service.ts:257-269 | one call of `startSession` is the step `OnStart` |
| `Host.CediaHost.Spawn` | apps/host/src/service.ts:299-314 | a start registers a fresh runtime object under a fresh incarnation |
| `Host.CediaHost.StartFailed` | apps/host/src/service.ts:382-391 | a failed start unregisters the runtime and stops the session |
| `Host.CediaHost.StopSession` | apps/host/src/service.ts:498-511 | stopping waits for a start in flight or marks the runtime closing |
| `Host.CediaHost.StopFinished` | apps/host/src/service.ts:516-521 | after the client's close the runtime goes and every pending command becomes unknown |
| `Host.CediaHost.Lost` | apps/host/src/service.ts:636-646 | losing the process unregisters the runtime, marks its commands unknown and requires recovery |
| `Host.CediaHost.UnknownCommands` | apps/host/src/service.ts:648-652 | the loop of store requests turns exactly the pending commands of one session unknown, and none is refused |
| `Host.CediaHost.Reconcile` | apps/host/src/service.ts:490-496 | reconciling is the step `OnReconcile` |
| `Host.CediaHost.Reopen` | apps/host/src/store.ts:560 | a new host on the old store starts from the recovered tables with nothing registered |
| `EventPages.EventLog.AppendEvent` | apps/host/src/store.ts:894-916 | the maximum loop gives the next sequence number; the log stays 1..n, or the safe range is exhausted and nothing changes |
| `EventPages.EventLog.ReadEvents` | apps/host/src/store.ts:918-928 | the store page is exactly the rows after the cursor up to the limit, with the cursor of the last and whether more follow; bad cursors and limits are refused |
| `EventPages.TakeWithinBudget` | apps/host/src/router.ts:171-179 | the byte budget: at least one event, within 128000 bytes unless single, and it stops only where the next would not fit |
| `EventPages.EventPage` | apps/host/src/router.ts:168-180 | the router's page after both truncations, with the right cursor and `hasMore` |
| `EventPages.LargeFramesAreReferenced` | apps/host/src/router.ts:173-176 | a frame of more than 48000 bytes is sent as a reference, any other as it is |
| `EventPages.ReferenceText` | apps/host/src/router.ts:174 | the size of a reference is that of its JSON text |
| `EventPages.BytesAreUtf8` | apps/host/src/router.ts:174-176 | the byte count is the length in UTF-8 |
| `EventPages.TotalOneMore` | apps/host/src/router.ts:177 | the size of a page is the sum over its events of envelope and frame |
| `EventPages.PageIsUnique` | apps/host/src/router.ts:168-180 | log, cursor and limit determine the page |
| `EventPages.FollowCursor` | apps/host/src/router.ts:168-180 | following the cursor from 0 terminates and the pages concatenate to exactly the log, large frames included, for any frame sizes and limits |
| `EventPages.PagesAreAPrefix` | apps/host/src/router.ts:168-180 | while the log grows, the pages read so far are exactly the part of it up to the cursor, and `hasMore` tells whether that is all of it |
| `EventPages.ReadFrame` | apps/host/src/router.ts:142-147 | a slice of a large frame is at most 24000 characters from the offset, or the event is not found |
| `EventPages.RebuildFrame` | apps/macos/src/api.ts:332-340 | the client's slice loop rebuilds the referenced frame exactly, when its length is at most 64 MiB, else refuses |
| `EventPages.ReadPage` | apps/macos/src/api.ts:325-343 | a page with every reference replaced by the text it stands for holds the frames of exactly those log entries |
| `ResponseChunks.Cache.Wrap` | apps/host/src/response-chunks.ts:8-19 | small bodies pass, oversized ones are refused, others are cached; only the oldest entries are evicted, no more than needed, and the byte count stays the sum of the entries within 128 MiB |
| `ResponseChunks.Cache.MakeRoom` | apps/host/src/response-chunks.ts:15 | the eviction loop terminates with room for the entry and removes a minimal prefix |
| `ResponseChunks.Cache.Read` | apps/host/src/response-chunks.ts:20-27 | a live reference gives at most 24000 characters from the offset and is refreshed; the error cases change nothing but the sweep |
| `ResponseChunks.Cache.Sweep` | apps/host/src/response-chunks.ts:29 | the sweep keeps exactly the entries used within ten minutes, in order |
| `ResponseChunks.FreshKeeps` | apps/host/src/response-chunks.ts:29 | an entry survives a sweep if and only if it is there and was used within ten minutes |
| `ResponseChunks.FreshOfAppend` | apps/host/src/response-chunks.ts:29 | the sweep keeps the order of the entries |
| `ResponseChunks.WrappedTextIsHeld` | apps/host/src/response-chunks.ts:13-18 | after a wrap that answers with a reference the text is in the cache |
| `ResponseChunks.OldestMakeRoom` | apps/host/src/response-chunks.ts:15-16 | a new entry goes to the end, and no more of the oldest go than it needs room for |
| `ResponseChunks.Rebuild` | apps/host/src/response-chunks.ts:20-27 | reading in steps from 0, with any calls of other clients in between, gives exactly the wrapped text or says that it expired; it does not expire when reads are at most ten minutes apart and what others wrap fits beside it |
| `ResponseChunks.Perform` | apps/host/src/response-chunks.ts:8-27 | any call of any client: the cache grows by at most what the call wraps, and while there is room no entry used within ten minutes goes |
| `ResponseChunks.WrapAndRebuild` | apps/host/src/response-chunks.ts:8-27 | a large text wrapped and read back by its device in time is exactly that text, whatever other clients do that fits beside it |
| `CssScanner.RenderScan` | scripts/synara-ui/build-css.ts:100-144 | the scanner loses nothing: its pieces put together are the stylesheet |
| `CssScanner.SameEnd` | scripts/synara-ui/build-css.ts:100-144 | where a piece ends depends only on the text up to there, through comments, strings and escapes |
| `CssScanner.RescanSeesTheSameStructure` | scripts/synara-ui/build-css.ts:100-144 | scanning a stylesheet whose top-level preludes were rewritten finds the same rules in the same scopes, nothing else touched |
| `CssSelectors.PartsAreSelectors` | scripts/synara-ui/build-css.ts:147-169 | every part of a split list is a single selector when read alone, and all but the last close their brackets and quotes |
| `CssSelectors.SplitAppend` | scripts/synara-ui/build-css.ts:147-169 | splitting two texts one after the other glues the last part of the first to the first part of the second |
| `CssScope.RewriteKeepsStructure` | scripts/synara-ui/build-css.ts:197-208 | a rewritten prelude has no structural character, no comment and is no at-rule, when the original is so |
| `CssScope.LeaksOfRewrite` | scripts/synara-ui/build-css.ts:179-208 | the selectors the guard rejects in a rewritten prelude, told exactly from the original selectors |
| `CssScope.GuardOfScoped` | scripts/synara-ui/build-css.ts:263-282 | for every stylesheet without comments in rewritten preludes, the guard's rescan sees the same rules and throws if and only if the first leak told from the input is not empty |
| `CssScope.ScopedPassesTheGuard` | scripts/synara-ui/build-css.ts:197-282 | scoping is closed under the guard: with nested rules relative to their parents and closed root selectors the guard finds no leak |
| `CssMeaning.ScopedRules` | scripts/synara-ui/build-css.ts:179-208 | in the rescan of a scoped stylesheet every top rule with closed root selectors has exactly the selectors its own stand for: under the surface for an ordinary one, the surface and all in it for `*`, surface and tokens for `:root` and `:host`; every other rule is as it was |
| `CssMeaning.PreludeBecomes` | scripts/synara-ui/build-css.ts:179-204 | the same for one prelude |
| `CssMeaning.RewrittenText` | scripts/synara-ui/build-css.ts:197-208 | a rewritten prelude keeps its white space, has commas between its selectors and none of them twice |
| `CssMeaning.FirstStays` | scripts/synara-ui/build-css.ts:206 | of equal scoped selectors the first stays in its place |
| `CssMeaning.GuardTold` | scripts/synara-ui/build-css.ts:263-282 | the guard accepts exactly the stylesheets in which every selector outside at-rules and animations starts with the surface, the tokens or `&`, or the first that does not is empty |
| `CssMeaning.TrimTold` | scripts/synara-ui/build-css.ts:179-204 | trimming takes the white space off both ends |
| `CssMeaning.SpacesAre` | scripts/synara-ui/build-css.ts:179-204 | the white space of `trim` |
| `CssReading.CommentsHide` | scripts/synara-ui/build-css.ts:75-78 | a comment hides everything up to its first end |
| `CssReading.StringsHide` | scripts/synara-ui/build-css.ts:81-118 | in a declaration a string hides everything up to its closing quote, behind escapes |
| `CssReading.PlainlyRead` | scripts/synara-ui/build-css.ts:109-142 | everything else is read character by character, and the first structural one ends the piece |
| `CssReading.RulesAreNested` | scripts/synara-ui/build-css.ts:119-141 | every rule has the scope that the open blocks around it give it: style in a style rule, keyframes in keyframes, the outer one in other at-rules |
| `CssReading.BlocksAreClosed` | scripts/synara-ui/build-css.ts:135-144 | a stylesheet that is read has no open block at its end |
| `CssReading.QuotesHide` | scripts/synara-ui/build-css.ts:153-158 | a quoted string stays in one selector |
| `CssReading.DepthIsBalance` | scripts/synara-ui/build-css.ts:159-161 | without quotes the depth is the number of opening brackets less that of closing ones |
| `CssReading.CommasSeparate` | scripts/synara-ui/build-css.ts:159-165 | behind text without quotes a comma separates selectors exactly when the brackets before it are balanced |
| `CssReading.SplitIsLossless` | scripts/synara-ui/build-css.ts:147-169 | the parts with commas between them are the list |
| `CssGuard.GuardAcceptsExactlyWhen` | scripts/synara-ui/build-css.ts:263-282 | for every stylesheet without unclosed blocks: the guard accepts it if and only if no selector is outside the surface or the first one that is is empty; so it misses leaks exactly in the second case |
| `CssGuard.WithoutEmptySelectorsTheGuardIsExact` | scripts/synara-ui/build-css.ts:263-282 | without empty selectors the guard accepts if and only if nothing leaks |
| `CssGuard.ScopedIsAcceptedExactlyWhen` | scripts/synara-ui/build-css.ts:197-282 | for every scoped stylesheet, told from its input: the guard accepts if and only if no rule leaks or the first that does has an empty leak first |
| `CssGuard.ScopedIsAcceptedBySelectors` | scripts/synara-ui/build-css.ts:197-282 | the same in the selectors of the input, when root selectors are closed: no empty selector in a top rule and no leak in a nested one, or the first rule that breaks this is a top rule with an empty selector or a nested one whose first rejected selector is empty |
| `CssGuard.ScopedWithoutEmptySelectors` | scripts/synara-ui/build-css.ts:197-282 | without empty selectors, and with closed root selectors, the guard accepts a scoped stylesheet if and only if nothing leaks, that is, every nested rule is relative to its parent |
| `CssExamples.UnclosedRootIsRejected` | scripts/synara-ui/build-css.ts:183-187 | `:root(,)){}` is scoped into a stylesheet that the guard rejects |
| `CssExamples.EmptySelectorHidesALeak` | scripts/synara-ui/build-css.ts:262-282 | `{}.a{b{}}` is scoped into a stylesheet whose nested rule `b` leaks, and the guard passes, because the empty selector is remembered first |
| `CssExamples.SpilledEmptySelectorHidesALeak` | scripts/synara-ui/build-css.ts:183-187 | `:root(,,)){}` has no empty selector, but its scoped form has one, and the guard passes what leaks behind it |
| `BuildCss.EachRulePrelude` | scripts/synara-ui/build-css.ts:100-144 | the index loop with its scope stack finds exactly the pieces of the scanner, or the unclosed block |
| `BuildCss.SkipComment` | scripts/synara-ui/build-css.ts:75-78 | the index just past the comment |
| `BuildCss.SkipString` | scripts/synara-ui/build-css.ts:81-88 | the index just past the closing quote, over escapes |
| `BuildCss.SplitSelectorList` | scripts/synara-ui/build-css.ts:147-169 | the loop over depth, quote and start gives exactly the parts |
| `BuildCss.ScopeCss` | scripts/synara-ui/build-css.ts:197-208 | the scoped stylesheet, in which the guard rejects exactly the leaks told from the input, or the unclosed block |
| `BuildCss.GuardLeaks` | scripts/synara-ui/build-css.ts:263-282 | the leak scan throws exactly when a block is unclosed or something leaks and the first leak is not empty |
| `NativeDisk.ApplyNativeDisk` | apps/host/src/native-disk.ts:104-206 | success means the file held the expected bytes and now equals the content; an error without `mayHaveApplied` means no write was tried and the file is unchanged; an effect happens only on the authorized, identical file; without failing calls it succeeds |
| `NativeDisk.Effect` | apps/host/src/native-disk.ts:175-183 | a verified effect leaves exactly the content; otherwise the file is the old one overwritten by a prefix of it, or the content |
| `NativeDisk.Preflight` | apps/host/src/native-disk.ts:159-173 | the write may start only on the same regular file holding exactly the expected bytes |
| `NativeDisk.Disk.ReadBounded` | apps/host/src/native-disk.ts:60-72 | whatever the short reads, a prefix of the file of at most one byte more than asked |
| `NativeDisk.Disk.WriteAll` | apps/host/src/native-disk.ts:78-85 | whatever the short writes, the content over the file, or a prefix of it when a write fails or makes no progress |
| `NativeDisk.InterruptedWrite` | apps/host/src/native-disk.ts:78-85 | an interrupted write leaves a prefix of the content followed by the old bytes, never anything else |
| `Editors.RunKeepsInv` | apps/host/src/editors.ts:31-76 | in every run: at most 100 windows, 100 pending requests and 10000 roots, each pending request owned by a registered window, delivered at most once, settled at most once |
| `Editors.FailedRegisterChangesNothing` | apps/host/src/editors.ts:31-43 | a registration that fails changes nothing at all: pruning expired windows never leaves a full table |
| `Editors.DeliveredOnceToItsWindow` | apps/host/src/editors.ts:44-50 | a request is delivered at most once, to the one window it was made for |
| `Editors.PollDeliversNewRequests` | apps/host/src/editors.ts:44-50 | what a poll hands out was pending and never delivered before, and counts as delivered to this window after it |
| `Editors.PendingOrSettled` | apps/host/src/editors.ts:60-76 | every request ever made is pending or settled and not both, and while pending its window stays registered |
| `Editors.SettledOnce` | apps/host/src/editors.ts:51-76 | a settled request keeps its outcome for ever |
| `Editors.ResponseNeedsDelivery` | apps/host/src/editors.ts:51-55 | a response is accepted if and only if its request is pending, was delivered to this window, and the deadline has not passed |
| `Editors.RootsOnlyGrow` | apps/host/src/editors.ts:15-20 | registered roots are never forgotten, in any run |
| `EditorOutcomes.RegisterOutcome` | apps/host/src/editors.ts:31-43 | who may register, and what it leaves: its roots added, its window replaced, windows dropped that are neither seen in five seconds nor owe an answer |
| `EditorOutcomes.PollOutcome` | apps/host/src/editors.ts:44-50 | a poll hands out exactly the undelivered requests of its window, in order and once, and marks them |
| `EditorOutcomes.RespondOutcome` | apps/host/src/editors.ts:51-55 | a response is accepted exactly for a delivered request of its window before the deadline, which then leaves the table |
| `EditorOutcomes.CancelOutcome` | apps/host/src/editors.ts:70-72 | an abort or a timeout takes a pending request out of the table, and nothing else |
| `EditorOutcomes.RequestOutcome` | apps/host/src/editors.ts:60-76 | the refusals in their order, else a request to the first live window that serves the directory, with a deadline of 30 seconds |
| `EditorOutcomes.CloseOutcome` | apps/host/src/editors.ts:88 | closing settles what is pending, forgets the windows and keeps the roots |
| `EditorConnections.Connections.HasRegisteredWorkspace` | apps/host/src/editors.ts:26-30 | true exactly when a registered root is a prefix of the resolved directory or the directory is a prefix of it |
| `EditorConnections.Connections.HasConnection` | apps/host/src/editors.ts:21-24 | true exactly when a window seen in the last five seconds has a root that is a prefix of the directory |
| `EditorConnections.Connections.Register` | apps/host/src/editors.ts:31-43 | the registration with its capacity checks, pruning loop and replacement |
| `EditorConnections.Connections.Poll` | apps/host/src/editors.ts:44-50 | the poll loop marks and returns exactly the undelivered requests of the window, in order |
| `EditorConnections.Connections.Respond` | apps/host/src/editors.ts:51-55 | accepting or refusing a response |
| `EditorConnections.Connections.Request` | apps/host/src/editors.ts:60-75 | making a request for the first live window that serves the directory, or refusing it |
| `EditorConnections.Connections.Close` | apps/host/src/editors.ts:88 | closing settles every pending request and keeps the roots |
| `NativeEditor.EditorsExcludeHeadlessWrites` | apps/host/src/native-editor.ts:78-110 | once a window registered a root above, at or below the workspace, or a snapshot returned a document, no later disk transaction of the bridge starts its effect, in any run |
| `NativeEditor.ConnectionIsOwned` | apps/host/src/editors.ts:21-30 | a live connection for a directory implies a registered root overlapping it |
| `NativeEditor.Bridge.ApplyDisk` | apps/host/src/native-editor.ts:78-87 | ownership check and transaction in one step: refused when any registered root is above, at or below the workspace or the path is known |
| `NativeEditor.BeginOutcome` | apps/host/src/native-editor.ts:89-102 | what a snapshot remembers before its request, and when it does not |
| `NativeEditor.EndOutcome` | apps/host/src/native-editor.ts:102-109 | what it remembers or forgets by its answer |
| `NativeEditor.Bridge.SnapshotBegins` | apps/host/src/native-editor.ts:89-102 | what a snapshot remembers before its request |
| `NativeEditor.Bridge.SnapshotEnds` | apps/host/src/native-editor.ts:102-109 | what a snapshot remembers or forgets by its answer |
| `Terminals.RunsAreHonest` | apps/host/src/terminal-state.ts:189-321 | in every run: at most 8 terminals and 512 buffered frames, and `historyIncomplete` is false exactly when the screen was fed outputs 0 to `lastSequence`, each once and in order |
| `Terminals.ScreensShowTheirOutputs` | apps/host/src/terminal-state.ts:267-321 | in every run, whatever was fed to a screen is the data of an output frame of that terminal with that sequence number |
| `TerminalScreens.ScreenIsFedWhatItHears` | apps/host/src/terminal-state.ts:267-321 | with the engine ready, a terminal that stays in the registry is fed exactly the outputs that come while it is open, with their data and in order, except those whose number is not larger than all before; closing and reopening loses none |
| `TerminalScreens.CompleteHistory` | apps/host/src/terminal-state.ts:267-321 | an opened terminal that hears outputs 0 to n was fed exactly their data in order, and its history is complete |
| `TerminalScreens.OutputOutcome` | apps/host/src/terminal-state.ts:313-320 | an output of an open terminal with a new number is fed and a gap remembered; any other changes nothing |
| `TerminalScreens.CloseOutcome` | apps/host/src/terminal-state.ts:306-312 | closing keeps everything but the flag and the first reason |
| `TerminalScreens.ReopenOutcome` | apps/host/src/terminal-state.ts:275-286 | opening again keeps the screen and makes the terminal writable |
| `TerminalScreens.OpenOutcome` | apps/host/src/terminal-state.ts:287-302 | a new terminal starts empty at the end; a full registry gives up its first closed terminal or refuses |
| `TerminalScreens.RegistryOutcome` | apps/host/src/terminal-state.ts:189-200 | frames are folded, buffered up to 512, or dropped without an engine |
| `TerminalScreens.ResizeOutcome` | apps/host/src/terminal-state.ts:202-209 | only an open terminal gets a new size |
| `Terminals.FeedIsHonest` | apps/host/src/terminal-state.ts:312-320 | feeding, ignoring duplicates and noting gaps keep the history flag true to the screen |
| `Terminals.OnlyTheOldestClosedIsEvicted` | apps/host/src/terminal-state.ts:287-292 | a frame keeps every terminal and its screen, except the oldest closed one when a full registry gets a new terminal |
| `Terminals.OpenTerminalsSurvive` | apps/host/src/terminal-state.ts:287-292 | an open terminal survives every frame |
| `Terminals.DelayedLoadRefinesEagerUse` | apps/host/src/terminal-state.ts:243-265 | loading late equals having had the engine all along and seen only the first 512 frames since the last dispose, then everything after |
| `Terminals.LoadingBuffers` | apps/host/src/terminal-state.ts:189-200 | before the engine is there the registry holds exactly the first 512 frames and no terminal |
| `Terminals.TerminalStateRegistry.ApplyWithEngine` | apps/host/src/terminal-state.ts:267-321 | one frame folded into the terminals; `TerminalScreens` tells what that is |
| `Terminals.TerminalStateRegistry.Apply` | apps/host/src/terminal-state.ts:189-200 | a frame is folded, buffered up to the bound, or dropped without an engine |
| `Terminals.TerminalStateRegistry.EngineLoaded` | apps/host/src/terminal-state.ts:243-265 | the loop folds the buffered frames in order, or drops them |
| `Terminals.TerminalStateRegistry.Resize` | apps/host/src/terminal-state.ts:202-209 | only an open terminal of another size is resized |
| `CheckpointRuns.CheckpointRuns` | apps/host/src/terminal-state.ts:102-159 | the result is exactly the runs of the grouping of the visible cells, sorted by row and column, cut after the first 5000 |
| `CheckpointRuns.GroupsRepresent` | apps/host/src/terminal-state.ts:127-157 | the grouping loses no cell, each run starts where its first cell is with the texts and the style of its cells, and no two neighbouring runs could be merged |
| `CheckpointRuns.RunsMean` | apps/host/src/terminal-state.ts:127-157 | within a run each cell goes on where the one before ends, in its row and style, a width that is not positive counting as one; between runs it does not |
| `CheckpointRuns.TextsFollow` | apps/host/src/terminal-state.ts:139 | the text of a run is the texts of its cells one after another |
| `CheckpointRuns.FirstGroups` | apps/host/src/terminal-state.ts:142-144 | cutting between two runs leaves the first runs of the whole grouping |
| `CheckpointRuns.MergedAreFirst` | apps/host/src/terminal-state.ts:127-158 | whatever consecutive unmergeable runs of the cells a loop ends with, cut at 5000 or at the end of the cells, they are the first runs of the one grouping |
| `CheckpointRuns.Merge` | apps/host/src/terminal-state.ts:127-157 | the merging loop: the runs represent the cells, or a prefix that ends where the 5001st run would start |
| `CheckpointRuns.GroupsAreUnique` | apps/host/src/terminal-state.ts:129-142 | there is only one way to group cells into runs that cannot be merged |
| `CheckpointRuns.RunsKeepText` | apps/host/src/terminal-state.ts:139-156 | the texts of the runs are the texts of the cells they stand for |
| `CheckpointRuns.SortIsStable` | apps/host/src/terminal-state.ts:106-108 | sorting orders by row and column, keeps all cells, and keeps the order of cells at one place |
| `CheckpointRuns.SortOrders` | apps/host/src/terminal-state.ts:108 | by row, and by column within a row |
| `CheckpointRuns.FilterKeepsVisible` | apps/host/src/terminal-state.ts:106-107 | exactly the cells with text in visible rows are kept |
| `CheckpointRuns.FilterKeepsOrder` | apps/host/src/terminal-state.ts:106-107 | the filter keeps cells of one place in order |
| `PngScanlines.PaethIsNearest` | scripts/png-pixel-probe.py:78-85 | the predictor is the neighbour nearest to left + above - upper left, ties in that order |
| `PngScanlines.FilterTypes` | scripts/png-pixel-probe.py:67-85 | filter 0 leaves a byte, 1 subtracts the left one, 2 the one above, 3 their mean, 4 the predictor |
| `PngScanlines.StreamByRows` | scripts/png-pixel-probe.py:62-90 | a stream is, row by row, the filter byte and the row filtered against the one above, zeros above the first |
| `PngScanlines.FilterIsInjective` | scripts/png-pixel-probe.py:67-85 | for every filter, row above and pixel size a filtered row has only one original |
| `PngScanlines.Unfilter` | scripts/png-pixel-probe.py:67-87 | the in-place loops turn a filtered line into the row whose filtering it was |
| `PngScanlines.ReadScanlines` | scripts/png-pixel-probe.py:62-90 | the scanline loop decodes rows whose filtered stream it read; it stops at an unknown filter or a truncated row, except that a truncated last row whose filter looks at none of its bytes is taken short |
| `PngScanlines.StopsTold` | scripts/png-pixel-probe.py:63-87 | where reading stops, and which truncated last rows are taken short |
| `PngScanlines.StreamIsInjective` | scripts/png-pixel-probe.py:62-90 | a stream determines its rows and filters |
| `PngScanlines.ReadingInvertsFiltering` | scripts/png-pixel-probe.py:56-90 | whatever was read from the stream of an image is exactly that image |
| `PngScanlines.ImagesAreReadToTheEnd` | scripts/png-pixel-probe.py:62-90 | the stream of an image never stops the reading early |
| `PngScanlines.RoundTrip` | scripts/png-pixel-probe.py:56-101 | for every size, 3 or 4 channels and any filter per row, reading the filtered stream gives back the original pixels |
| `PngScanlines.RgbExpands` | scripts/png-pixel-probe.py:93-101 | each RGBA pixel is the source pixel, opaque |
| `PngScanlines.RgbaIsIdentity` | scripts/png-pixel-probe.py:91-92 | RGBA pixels stay as they are |
| `PngScanlines.ReadPixels` | scripts/png-pixel-probe.py:56-101 | what is read are the pixels, expanded to RGBA, of rows whose filtered stream the input begins with; where the input does not go on with a row it fails, or returns the short buffer of an RGBA image |

## Left out

- Deleting a session and creating another with the same id: all claims are about one lifetime of a session row.
- Opening the store with recovery disabled, schema migration, and I/O failures of the store.
- The size limits of ids, kinds and other text arguments; only the limit of error texts is modelled, because it can refuse a status change.
- JSON numbers that are not integers, and the refusals of cycles, prototypes, accessors, symbols and sparse arrays, which have no counterpart in a value; refused leaf values are modelled.
- The events that `#record` appends for frames and status changes, and failures to append them; the log itself is `EventPages`.
- Calls chained on a promise in flight: a repeated command waits for the first dispatch, and `startSession` calls itself again after a stop or a loss; each call is one event.
- `Host.CediaHost.StartSession`: one call only; it loops when a stopping session's client cannot be closed, which is not modelled.
- Closing the host only refuses new calls here; stopping all sessions is a series of stop events.
- Permission prompts, the dispatcher of host tools, forks, worktrees and provider authentication.
- `CssScope.ScopedPassesTheGuard`: comments inside rewritten preludes are excluded, because a comment may hide any character from the scanner and the splitter does not know comments; comments elsewhere are covered.
- The guard's tests for `:root`/`:host` text and for keyframe names, and `prefixKeyframes`: regular expressions over the whole text.
- Escapes in selectors outside quotes: the splitter has none, so nothing is claimed about escaped quotes in CSS.
- `NativeDisk.ApplyNativeDisk`: works on UTF-8 bytes, so a text with lone surrogates is outside the model; other writers of the same file are excluded, as the code itself documents.
- Overlapping snapshots of one new path, where a null answer can erase what another just learned; the exclusion theorem does not use the remembered paths.
- Guarded apply, create, delete and move of editor documents: only what they add to and remove from the remembered paths is an event.
- Sorting terminals by id and trimming lines in terminal snapshots, and exceptions from the terminal engine.
- PNG chunks, decompression and the colour statistics.
- A stored frame whose own type is `cedia_frame_reference`, which a client would take for a reference.
