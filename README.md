# prosemirror-suggestion-mode, modelled in Dafny

This project models the change-tracking logic of a ProseMirror "suggestion mode"
package, together with proofs about it. In suggestion mode, edits are recorded as
suggestions that can later be accepted or rejected. Four pieces are modelled, one
Dafny module each, on a shared module of JavaScript values:

- `JsValues` (`js_values.dfy`) models JavaScript values and object spread
  (`{...a, ...b}` is map union with the right-hand side winning). It also defines
  truthiness and the `Option`/`Result` wrappers.
- `Suggestions` (`suggestions.dfy`) models `src/suggestions.ts`:
  - the plugin state reducer (`init`/`apply`) over a change set whose changes are a
    sequence, with `ChangeSet.addSteps` as a function parameter;
  - the classification of a change as insertion or deletion;
  - the edit that `acceptChange`/`rejectChange` request, including the fold that
    rebuilds a deletion's text;
  - the change-id strings of the decorations.
- `SuggestEdit` (`suggest_edit.dfy`) models `src/tools/suggestEdit.ts`:
  - `escapeRegExp`;
  - the match-collection loop, as a literal, non-overlapping, left-to-right
    substring search capped at 1000 matches;
  - the span computed inside each match;
  - `findDocumentPositions`, as a loop over a document's text nodes;
  - `suggestEdit` itself, as a method on a `View` class. The view holds the
    document, the mode plugin's state and a log of dispatched requests. Applying a
    replace request to the document is a host function parameter that may
    throw; a replacement that throws ends `suggestEdit` without the restoring
    meta.
- `LegacySuggestions` (`legacy_suggestions.dfy`) models the mark-based plugin of
  `src/suggestions.js`:
  - the merge reducer and its initial state;
  - `appendTransaction`, over plain records of steps and their maps;
  - the `handleKeyDown` guard.
- `ChangesetTracker` (`changeset_tracker.dfy`) models `src/changesetTracker.js` as
  a class with the tracker's two fields and its methods. `determineChangeType` is
  the pure comparison beside it.

Each imperative routine of the source is a method whose postcondition ties its
result to a specification function. The properties of that function are proved
as lemmas:
- the match loop against `AllMatches`/`Take`;
- the position walk against `DocumentPositions`;
- `suggestEdit` against `Plan`/`Replay`;
- `appendTransaction` against `AppendTransactionResult`.

Behaviour of the code that is worth knowing, modelled as the code behaves:

- The `apply` of `src/suggestions.ts` never copies `username` out of a meta, and
  `init` does not set one. So tracked changes are always attributed to
  `'Anonymous'` (`TrackedUserStaysAnonymous`).
- The test at `src/test/suggestions.test.ts:35` expects suggestion mode to start
  on. The code at `src/suggestions.ts:338` starts it off, and the model follows
  the code.
- `recordChange` in `src/changesetTracker.js` stores a plain object literal in
  `changeset`. That object has no `getChanges` method, so `getCurrentSessionChanges`
  in the same session then fails with a TypeError
  (`RecordedChangeBreaksSessionChanges`).
- Because skipped suggestions have an empty `textToReplace`, the search text of
  `suggestEdit` is never empty. Its empty-document branch
  (`src/tools/suggestEdit.ts:77-83`) and its zero-length-match guard (97-99)
  cannot run, so the model states `SearchText` non-empty and leaves both out.

## Model

| member | source | states |
|---|---|---|
| JsValues.Spread | src/suggestions.js:97-100 | object spread: the keys are the union, the later object's fields win, and the earlier object's other fields are kept |
| Suggestions.Init | src/suggestions.ts:335-342 | the initial state has suggestion mode off, deleted text shown, metadata user 'Anonymous' at the given time, no username, and an empty change list |
| Suggestions.Apply | src/suggestions.ts:344-393 | on every path, each flag takes the meta's value when one is defined and otherwise keeps the old one; metadata and username never change; a removeChange meta filters the list and adds nothing; otherwise the library extends the change set only when the document changed and the resulting mode is on, with data attributed to the state's user |
| Suggestions.AttributedUser | src/suggestions.ts:384 | the user of tracked data is the username when it is present and non-empty, and 'Anonymous' otherwise; never empty |
| Suggestions.RemoveChange | src/suggestions.ts:353-358 | filtering never lengthens the change list |
| Suggestions.RemoveChangeMembers | src/suggestions.ts:353-358 | a change survives removal iff it was in the list and differs from the target in one of fromA, toA, fromB, toB |
| Suggestions.RemoveChangeAppend | src/suggestions.ts:353-358 | removal distributes over concatenation, so the surviving changes keep their order |
| Suggestions.RemoveAbsentChange | src/suggestions.ts:353-358 | removing a change that matches no entry leaves the list unchanged |
| Suggestions.RemoveChangeIdempotent | src/suggestions.ts:353-358 | removing the same change twice is removing it once |
| Suggestions.RemovalBypassesTracking | src/suggestions.ts:350-379 | a removeChange transaction keeps the config and both flags, and its change list is the old one minus the target, whatever the transaction did to the document and whatever addSteps would produce |
| Suggestions.RemovalTwiceIsOnce | src/suggestions.ts:350-379 | applying the same removeChange transaction twice gives the same state as applying it once |
| Suggestions.UntrackedTransaction | src/suggestions.ts:381 | an unchanged document, or suggestion mode off, leaves the change list as it was, except for a removeChange |
| Suggestions.TrackedUserStaysAnonymous | src/suggestions.ts:384 | over any run of transactions from a state without a username, the username stays absent, so every tracked change is attributed to 'Anonymous' |
| Suggestions.Kind | src/suggestions.ts:163 | a change is an insertion iff fromA == toA, and a deletion iff not |
| Suggestions.DeletedText | src/suggestions.ts:205-211 | the restored text of a deletion starts from the empty text, and every span's text fits in it |
| Suggestions.DeletedTextAppend | src/suggestions.ts:205-211 | the deleted-text fold distributes over concatenation of span lists, so the texts are joined in span order |
| Suggestions.DeletedTextCons | src/suggestions.ts:205-211 | the fold over a span followed by others is that span's text followed by the others' |
| Suggestions.DeletedTextWithoutData | src/suggestions.ts:205-211 | spans without data or without deletedText contribute nothing |
| Suggestions.AcceptChange | src/suggestions.ts:160-185 | accepting either kind of change requests no document edit and only the removal of that change |
| Suggestions.RejectChange | src/suggestions.ts:187-225 | rejecting an insertion deletes [fromB, toB); rejecting a deletion inserts the folded deleted text at fromB exactly when that text is non-empty; both remove the change |
| Suggestions.ResolutionRemovesChange | src/suggestions.ts:160-225 | after accept or reject, the plugin's change list is the old one minus the resolved change, with both flags unchanged |
| Suggestions.Decimal | src/suggestions.ts:149 | a position is written as a non-empty string of decimal digits |
| Suggestions.DecimalRoundTrip | src/suggestions.ts:149 | reading the decimal text of a position gives the position back |
| Suggestions.InsertionId | src/suggestions.ts:149 | an insertion's id begins with the digits of fromB and ends with "-insert" |
| Suggestions.DeletionId | src/suggestions.ts:235 | a deletion's id begins with the digits of fromA and ends with "-delete" |
| Suggestions.IdRoundTrip | src/suggestions.ts:149 | an id written as two numbers and a word, separated by dashes, parses back to the two numbers and the kind the word names |
| Suggestions.InsertionIdRoundTrip | src/suggestions.ts:149 | an insertion's id `${fromB}-${toB}-insert` parses back to fromB, toB and the insertion kind, so insertions over different ranges get different ids |
| Suggestions.DeletionIdRoundTrip | src/suggestions.ts:235 | a deletion's id `${fromA}-${toA}-delete` parses back to fromA, toA and the deletion kind |
| SuggestEdit.EscapeRegExp | src/tools/suggestEdit.ts:230-232 | the escaped text is as long as the input plus the number of regex metacharacters in it |
| SuggestEdit.EscapedPatternIsLiteral | src/tools/suggestEdit.ts:230-232 | the escaped text is a pattern of literal characters only, and the literal it denotes is exactly the input |
| SuggestEdit.EscapePlainText | src/tools/suggestEdit.ts:230-232 | text without metacharacters is left unchanged |
| SuggestEdit.NextOccurrence | src/tools/suggestEdit.ts:94 | a found match starts at or after lastIndex and lies inside the text |
| SuggestEdit.NextOccurrenceIsLeftmost | src/tools/suggestEdit.ts:94 | a found match is an occurrence with no occurrence skipped before it; when none is found, none exists from lastIndex on |
| SuggestEdit.MatchesAreOccurrences | src/tools/suggestEdit.ts:85-115 | every position the global search yields is an occurrence of the search text |
| SuggestEdit.MatchesDoNotOverlap | src/tools/suggestEdit.ts:85-115 | successive matches are ascending and do not overlap |
| SuggestEdit.MatchesCoverOccurrences | src/tools/suggestEdit.ts:85-115 | every occurrence overlaps some collected match, so nothing is missed except occurrences overlapping an earlier match |
| SuggestEdit.Take | src/tools/suggestEdit.ts:102-108 | the cap keeps a prefix of exactly the limit when the list is longer, and the whole list when it fits |
| SuggestEdit.CollectMatches | src/tools/suggestEdit.ts:85-115 | the loop collects exactly the first 1000 matches of the literal search, in order |
| SuggestEdit.SearchText | src/tools/suggestEdit.ts:72-76 | the search text is never empty for a suggestion that is not skipped |
| SuggestEdit.SpanOfMatch | src/tools/suggestEdit.ts:120-121 | the replaced span is as long as textToReplace |
| SuggestEdit.SpanInsideMatch | src/tools/suggestEdit.ts:120-121 | inside each match, the span lies between textBefore and textAfter and covers exactly textToReplace |
| SuggestEdit.SpansOf | src/tools/suggestEdit.ts:118-121 | one span per match, in match order |
| SuggestEdit.EmptySuggestionSkipped | src/tools/suggestEdit.ts:66-70 | a suggestion with an empty textToReplace yields no replacement |
| SuggestEdit.SuggestionPlanShape | src/tools/suggestEdit.ts:92-108 | a suggestion yields at most 1000 replacements, and their matches do not overlap |
| SuggestEdit.PlanTargetsTextToReplace | src/tools/suggestEdit.ts:60-121 | every planned replacement covers, in the text read before the first replacement is dispatched, exactly the textToReplace of its own suggestion, which is non-empty |
| SuggestEdit.PlanSize | src/tools/suggestEdit.ts:64-135 | the number of planned replacements is the sum over non-skipped suggestions of their matches, at most 1000 per suggestion |
| SuggestEdit.FindStartIsFirstHolder | src/tools/suggestEdit.ts:176-182 | the start position is pos + (textStart - s) for the first text node whose range [s, s + len) contains textStart |
| SuggestEdit.FindEndIsFirstHolder | src/tools/suggestEdit.ts:185-191 | the end position is pos + (textEnd - s) for the first text node with s < textEnd <= s + len |
| SuggestEdit.FallBackToTextOffsets | src/tools/suggestEdit.ts:224 | when no node holds the start or no node holds the end, the result is the text offsets themselves |
| SuggestEdit.FindDocumentPositions | src/tools/suggestEdit.ts:154-225 | the walk over the text nodes returns the found positions, shifted by -1 when a top-level node has marks, and falls back to the text offsets otherwise |
| SuggestEdit.ReplayIssuesOneRequestEach | src/tools/suggestEdit.ts:14-32 | replaying dispatches, in plan order, one replace request per planned replacement up to the first that throws, each carrying its suggestion's non-empty replacement text; without a throw the whole plan is dispatched |
| SuggestEdit.ReplayAbortsOnEmptyReplacement | src/tools/suggestEdit.ts:30 | a planned replacement by the empty text throws in `schema.text`, so the replay aborts and dispatches fewer requests than its position in the plan |
| SuggestEdit.ReplayCompletes | src/tools/suggestEdit.ts:30-31 | with no empty replacement and a host that accepts every replacement, the replay does not abort and dispatches the whole plan |
| SuggestEdit.ReplayAbortedPrefix | src/tools/suggestEdit.ts:64-135 | once a replacement has thrown, the rest of the plan is not run: replaying any longer plan gives the same requests and document |
| SuggestEdit.ReplayReplaceCount | src/tools/suggestEdit.ts:132-133 | every dispatched request of a replay is a replacement, and without a throw there are exactly as many as planned replacements |
| SuggestEdit.ReplaceRequest | src/tools/suggestEdit.ts:20-31 | the request for a planned replacement carries the suggestion's replacement text and its reason when it has one, over the positions that findDocumentPositions gives for the planned text offsets in the current document |
| SuggestEdit.View.Dispatch | src/tools/suggestEdit.ts:31 | dispatching a built transaction appends the request to the log and sets the document to the one the transaction produced |
| SuggestEdit.ReplaceInProsemirror | src/tools/suggestEdit.ts:14-32 | it throws exactly when building the transaction throws (an empty replacement text, or positions the host rejects), and then dispatches nothing; otherwise it dispatches one replace request with the suggestion's text and reason |
| SuggestEdit.DispatchReplacements | src/tools/suggestEdit.ts:118-134 | the inner loop dispatches one replacement per match, each on the document the earlier ones left, stops at the first that throws, and otherwise counts all of them |
| SuggestEdit.SuggestEditIn | src/tools/suggestEdit.ts:43-148 | without mode state, nothing is dispatched and 0 is returned; otherwise it dispatches the meta switching mode on for the user, then the plan computed on the text read after it; if a replacement throws, the call ends there with no restoring meta; otherwise it dispatches the meta restoring the starting user, data and mode, and returns the number of replacements |
| LegacySuggestions.Init | src/suggestions.js:81-90 | the initial state has suggestion mode on, username 'Anonymous', deleted text shown, and metadata for 'Anonymous' at the given time |
| LegacySuggestions.Apply | src/suggestions.js:93-104 | with a meta, each of its fields overrides the state and the state's other fields are kept; without one, the state is returned unchanged |
| LegacySuggestions.ApplyIdempotent | src/suggestions.js:95-101 | merging the same meta twice is merging it once |
| LegacySuggestions.ApplyCompose | src/suggestions.js:95-101 | merging two metas in turn is merging their spread, the later one winning |
| LegacySuggestions.StepMarks | src/suggestions.js:46-72 | an insertion step marks each new range of its map, in map order; a deletion step marks [from, from + 1) with the removed text only when that text is non-empty; any other step marks nothing |
| LegacySuggestions.AppendTransactionResult | src/suggestions.js:32-78 | nothing is appended with suggestion mode off or when no transaction changed the document; with mode on and a changed document, the marks of all steps are returned exactly when there are some; an appended transaction is never empty |
| LegacySuggestions.MarkStep | src/suggestions.js:46-72 | one step's body appends exactly that step's marks |
| LegacySuggestions.MarkSteps | src/suggestions.js:42-73 | the loop over one transaction's steps yields the marks of every step, in step order |
| LegacySuggestions.AppendTransaction | src/suggestions.js:32-78 | the nested loops add every step's marks, transaction by transaction, and return null when none were added |
| LegacySuggestions.AppendedMarksWellFormed | src/suggestions.js:41-74 | every appended mark is attributed to the state's user with the current time, and every deletion mark is one position wide with non-empty text |
| LegacySuggestions.StepsMarkCount | src/suggestions.js:42-74 | the steps add one mark per mapped range of each insertion and one per deletion that removed text |
| LegacySuggestions.HandleKeyDown | src/suggestions.js:108-136 | the key is handled iff suggestion mode is on, the key is Backspace or Delete, and the selection is non-empty; then exactly one deletion mark [from, from + 1) with the selected text is dispatched |
| ChangesetTracker.DetermineChangeType | src/changesetTracker.js:79-86 | 'insertion' iff the new text is longer, 'deletion' iff it is shorter, 'modification' iff the lengths are equal |
| ChangesetTracker.SessionRecord | src/changesetTracker.js:21-25 | a session record holds id and startTime plus the metadata's fields; a metadata id or startTime overrides the generated one |
| ChangesetTracker.ChangeMetadata | src/changesetTracker.js:42-45 | a change's metadata holds every session field, with timestamp replaced by the recording time |
| ChangesetTracker.NewChange | src/changesetTracker.js:48-52 | the stored record keeps the change's own fields, with metadata and type set to the session metadata and the change type |
| ChangesetTracker.FilterSession | src/changesetTracker.js:63-65 | the filter never lengthens the list |
| ChangesetTracker.FilterSessionFails | src/changesetTracker.js:63-65 | the filter fails iff some change has no readable metadata |
| ChangesetTracker.FilterSessionKeeps | src/changesetTracker.js:63-65 | a change is kept iff its metadata.sessionId equals the session id |
| ChangesetTracker.FilterSessionAppend | src/changesetTracker.js:63-65 | filtering a concatenation is filtering each part and joining the results, the first failure winning, so kept changes stay in order |
| ChangesetTracker.SessionChanges | src/changesetTracker.js:61-66 | no session gives an empty list; a stored change record gives a TypeError; a library change set gives its changes filtered by the session id |
| ChangesetTracker.Tracker.constructor | src/changesetTracker.js:14-17 | a new tracker holds the library's empty change set and no session |
| ChangesetTracker.Tracker.StartSession | src/changesetTracker.js:20-27 | the tracker then holds the new session record and returns that record's id; the change set is untouched |
| ChangesetTracker.Tracker.EndSession | src/changesetTracker.js:30-35 | afterwards there is no session; the change set is untouched |
| ChangesetTracker.Tracker.RecordChange | src/changesetTracker.js:38-58 | without a session nothing changes and null is returned; with one, the returned record replaces the change set and the session stays |
| ChangesetTracker.Tracker.GetCurrentSessionChanges | src/changesetTracker.js:61-66 | returns the session changes of the current state |
| ChangesetTracker.Tracker.AcceptChange | src/changesetTracker.js:69-71 | changes no state |
| ChangesetTracker.Tracker.RejectChange | src/changesetTracker.js:74-76 | changes no state |
| ChangesetTracker.RecordedChangeBreaksSessionChanges | src/changesetTracker.js:48-66 | once a change is recorded in a session, asking for that session's changes fails with a TypeError |

## Left out

- Rendering is not modelled. This covers styles, decorations, widgets, tooltips and DOM construction in `src/suggestions.ts`, all of `src/changesetDecorator.js`, and the date text of `src/suggestions.js`.
- The internals of `prosemirror-changeset` are outside the model. `ChangeSet.create`, `addSteps`, `getChanges` and their position mapping are function parameters or opaque records.
- ProseMirror transactions, `view.dispatch`, `replaceWith`, `insertText`, `delete`, `addMark` and `textBetween` are the host's. Their effect on a document is a parameter. Whether `replaceWith` throws on given positions is the host's decision; an empty replacement text always throws, in `schema.text`. Either throw ends `suggestEdit`, as `SuggestEditIn` states.
- `addMark` is modelled as always producing a step. The library can add none when the range already carries the mark, and the model does not capture that case of the `tr.steps.length` test.
- The JavaScript regular-expression engine is not modelled. The escaped global pattern is modelled as literal substring search.
- `findDocumentPositions` depends on the document. Its check for a `nodesBetween` method and its try/catch fallback handle foreign failures and are not modelled. The document is a sequence of text nodes, in order, with their positions, plus a flag for "a top-level node has marks".
- `Date.now` and `Math.random().toString(36).substr(2, 9)` are parameters. One time value is used per call, where the source may read the clock once per mark.
- `endSession` writes `endTime` into the session it then drops. Nothing can observe it, so it is not modelled.
- Numbers are unbounded integers. Text lengths are counted in characters rather than UTF-16 code units.
- Equality of JavaScript objects is modelled as structural equality, not reference identity.
- Console logging and warnings are not modelled.
- `src/index.ts` re-exports the plugin, acceptReject, key, setMode, applySuggestion, hoverMenu and menuBar modules. These are not part of this model, and neither is the mode plugin whose state `suggestEdit` reads and sets. That state is modelled as a record with `username`, `data` and `inSuggestionMode`.
- The startup glue, schemas and build configuration are not modelled.
- SuggestEdit.SuggestEditIn: the mode plugin is not part of this model, so the metas dispatched at `src/tools/suggestEdit.ts:52-58` and `138-145` (and the reason meta at 23-27) are only logged. The modelled `modeState` never changes, and the postcondition `view.modeState == old(view.modeState)` holds because `Dispatch` keeps that field, not as a property of the plugin. That the plugin runs in suggestion mode for the caller during the loop is stated only by the logged meta.
- Suggestions.RemoveChange: its own contract only bounds the length. Membership and order are stated by RemoveChangeMembers and RemoveChangeAppend.
- ChangesetTracker.FilterSession: its own contract only bounds the length. Which changes are kept, when it fails and the order are stated by FilterSessionKeeps, FilterSessionFails and FilterSessionAppend.
- LegacySuggestions.MarkSteps: the source adds each step's marks straight to the one accumulating transaction. The model collects one transaction's marks and then appends them, which gives the same sequence.
