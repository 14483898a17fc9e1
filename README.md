# Comment-to-DM service: keyword matcher, store, webhook and automation routes

This project models the core of an Instagram comment-to-DM service. A user
connects an Instagram account and sets up *automations*. An automation is a
rule that says: when someone comments on this post (`mediaId`) with this
keyword, send them this direct message. Instagram reports new comments to a
webhook. For each comment the webhook:

1. finds the post's first active rule;
2. matches the keyword as a whole word, ignoring case and surrounding whitespace;
3. skips commenters who already received the message, for rules that reply once per user;
4. sends the DM through the owner's account;
5. writes a `sent`, `failed` or `skipped` log entry and keeps a per-rule counter of sent DMs.

The modules follow the source files.

- **`Types`, `Http`**: the stored records, the webhook payload and the route responses.
- **`Utils`** (`src/lib/utils.ts`): `containsKeyword` and `truncateText`.
  - Lower-casing is defined over ASCII letters, and its contract says what each character becomes.
  - Trimming and splitting on whitespace runs are proved against an independent definition of a whitespace-delimited token.
- **`Keyed`**: a JavaScript `Map` keyed by each record's `id`, as an insertion-ordered sequence with unique keys.
  - `Get`, `Put` (replace in place, or append) and `Remove` are each proved to behave as a map.
- **`Db`** (`src/lib/db.ts`): the module-level stores, as the class `Store`.
  - Its fields `users`, `automations` and `logs` are sequences that its methods reassign.
  - The three lookups that iterate `values()` (`getUserByInstagramId`, `getAutomationsByUserId`, `getActiveAutomationByMediaId`) are `while` loops over insertion order, each proved to answer what a query function states; the other queries are single `Map.get`, `some` or `filter` calls and are stated against the same query functions.
  - Every mutator keeps ids unique and leaves the other stores unchanged.
  - The two queries that collect matches (`getAutomationsByUserId`, `getLogsByAutomationId`) share one order-preserving `Filter`, the same one `Map.delete` is proved to agree with.
  - `Inv` states that every automation's `dmsSent` equals its number of `sent` logs. Creating a fresh automation and deleting one keep it, and so does the webhook.
- **`Webhook`** (`src/app/api/webhook/instagram/route.ts`): the GET handshake, and POST as a per-change state machine.
  - The state machine is `ProcessChange`, which calls `Reply`, which calls `Deliver`.
  - The batch functions `ChangesRun`, `EntriesRun` and `Post` are the reference that the imperative `HandleChange` and `HandlePost` (nested loops over the store) are proved to follow.
  - The DM send is an oracle in the environment `Env`. It answers success, or a thrown value, as a function of the number of logs written so far and the request.
  - Fresh log ids and timestamps come from the same environment.
  - A property that the source would raise an exception for is an `Option`. A `None` there aborts the rest of the batch with the effects so far kept, and the acknowledgement is still returned.
- **`AutomationsApi`** (`src/app/api/automations/route.ts`): listing the session user's automations, and creating one.
  - Creation is the pure guard chain `CreateDecision` followed by one store insert in `PostAutomation`.
  - The session is the signed-in user's id, or `None`.

Points where the model pins down behaviour that the code has and the prose around it does not state:

- **The conflict check with several users (`src/app/api/automations/route.ts:67-68`).** It looks only at the *first* active automation for the post.
  - Another user's rule never blocks a create.
  - The session user's own active rule does not block one either, when another user's active rule for the same post was stored before it (`OtherOwnersNeverBlock`).
- **A whitespace-only keyword (`src/app/api/automations/route.ts:45,82`).** It passes the required-field guard, because it is not `""`. It is then stored as `""`, and from then on matches exactly the blank comments (`BlankKeywordStoredEmpty`).
- **`truncateText` limits below 3 (`src/lib/utils.ts:15`).** A text longer than the limit comes back longer than the limit (`TruncateTextSmallLimitOverflows`).
- **A missing owner (`src/app/api/webhook/instagram/route.ts:97-101`).** When the owner of a matching rule is missing, nothing is logged.

## Model

| member | source | states |
|---|---|---|
| Utils.ToLower | src/lib/utils.ts:19-20 | lower-casing keeps the length, turns each ASCII capital into its lower-case partner (32 code points on), so none is left, and keeps every other character in place |
| Utils.ToUpper | src/lib/utils.ts:19-20 | the opposite case mapping, used to state that the match ignores case: each ASCII lower-case letter becomes its capital, every other character stays |
| Utils.Trim | src/lib/utils.ts:19-20 | the trimmed text is no longer than the input and neither starts nor ends with whitespace |
| Utils.Split | src/lib/utils.ts:23 | `split(/\s+/)` yields at least one piece, and no piece contains whitespace |
| Utils.ContainsKeyword | src/lib/utils.ts:18-25 | a match implies that the lower-cased, trimmed keyword contains no whitespace (it is one of the text's pieces); the full iff is `ContainsKeywordIsWholeWord` |
| Utils.TrimCharacterized | src/lib/utils.ts:19-20 | `trim` removes exactly the leading and the trailing whitespace run: for any cut of `s` into a whitespace prefix, a core that starts and ends with a non-space, and a whitespace suffix, the result is the core |
| Utils.TrimEmptyIffAllSpace | src/lib/utils.ts:19-20 | the trimmed text is empty iff every character is whitespace |
| Utils.SplitYieldsTokens | src/lib/utils.ts:23 | a non-empty word is among the pieces of `split(/\s+/)` iff it is a maximal whitespace-free run of the string |
| Utils.SplitOfTrimmed | src/lib/utils.ts:23 | on a trimmed string, `split` yields an empty piece iff the string is empty |
| Utils.ContainsKeywordIsWholeWord | src/lib/utils.ts:18-25 | `containsKeyword` holds iff the lower-cased, trimmed keyword is a whole token of the lower-cased, trimmed text; an empty normalised keyword matches only the empty normalised text |
| Utils.ContainsKeywordIgnoresCase | src/lib/utils.ts:19-20 | upper- or lower-casing the text or the keyword never changes the answer |
| Utils.ContainsKeywordIgnoresPadding | src/lib/utils.ts:19-20 | leading or trailing whitespace on either argument never changes the answer |
| Utils.BlankTextMatchesNoKeyword | src/lib/utils.ts:23-24 | a keyword that is not all whitespace never matches an empty or all-whitespace text |
| Utils.InnerSpaceKeywordNeverMatches | src/lib/utils.ts:23-24 | a keyword with whitespace between two non-space characters never matches any text |
| Utils.BlankKeywordMatchesOnlyBlankText | src/lib/utils.ts:18-25 | an all-whitespace keyword matches exactly the all-whitespace texts |
| Utils.SliceEnd | src/lib/utils.ts:15 | the `slice` end index equals the argument when that is in range, is the string length past the end, and counts back from the end (floored at 0) when negative |
| Utils.TruncateText | src/lib/utils.ts:13-16 | a text within the limit is returned unchanged; a longer one is its first `SliceEnd(length, limit − 3)` characters followed by "...", which for limits of at least 3 is exactly the limit's length |
| Utils.TruncateTextNegativeEnd | src/lib/utils.ts:15 | a negative `slice` end counts back from the end of the text: limit 2 on "abcdef" gives "abcde...", limit −10 gives "..." |
| Utils.TruncateTextFits | src/lib/utils.ts:13-16 | for limits of at least 3 the result never exceeds the limit, and truncating twice equals truncating once |
| Utils.TruncateTextSmallLimitOverflows | src/lib/utils.ts:15 | for a limit below 3 a longer text comes back longer than the limit |
| Keyed.Get | src/lib/db.ts:21-23 | `Map.get` returns a stored record carrying the key, and nothing iff no stored record has the key |
| Keyed.Put | src/lib/db.ts:17 | after `Map.set` the record put is stored, the size grows by at most one, and every stored record is the new one or an old one |
| Keyed.Remove | src/lib/db.ts:80 | after `Map.delete` every remaining record was stored before, and the size drops by one when the key was present |
| Keyed.FindSpec | src/lib/db.ts:9-10 | key lookup finds nothing iff no record has the key, otherwise the first record with it, which is the only one when keys are unique |
| Keyed.PutSpec | src/lib/db.ts:17 | after `set` the key reads back the record put, every other key reads back what it did, and keys stay unique |
| Keyed.PutShape | src/lib/db.ts:44 | `set` with a new key appends at the end; with a present key it replaces that record where it stands and keeps the rest |
| Keyed.RemoveReadBack | src/lib/db.ts:80 | after `delete` the key is gone, other keys read back as before, keys stay unique, and the size drops by one exactly when the key was present |
| Keyed.RemoveSpec | src/lib/db.ts:80 | after `delete` the key is gone, other keys are unaffected, keys stay unique, the size drops by one exactly when the key was present, and the result is the order-preserving filter of the other records |
| Keyed.RemoveIsFilter | src/lib/db.ts:80 | with unique keys, `Map.delete` keeps every other record in its insertion order: it equals filtering out the key |
| Keyed.FilterDropsOne | src/lib/db.ts:80 | dropping one rejected record between two kept runs leaves the two runs joined |
| Keyed.FilterKeepsAll | src/lib/db.ts:80 | a filter that accepts every record returns the sequence unchanged |
| Db.PatchUser | src/lib/db.ts:37 | the spread update keeps the user's id and stamps `updatedAt` with the update time |
| Db.PatchAutomation | src/lib/db.ts:74 | the spread update keeps the automation's id and stamps `updatedAt` with the update time |
| Db.PatchUserFields | src/lib/db.ts:37 | every field given in the update overrides the stored one, and every field not given keeps its stored value |
| Db.PatchUserSpec | src/lib/db.ts:37 | an empty update only refreshes `updatedAt`; applying the same update twice equals applying it once at the later time |
| Db.PatchAutomationFields | src/lib/db.ts:74 | every field given in the update (owner, media fields, keyword, message, reply-once, active flag, DM count, creation time) overrides the stored one, and every field not given keeps its stored value |
| Db.PatchAutomationSpec | src/lib/db.ts:74 | an empty update only refreshes `updatedAt`; applying the same update twice equals applying it once at the later time |
| Db.UserByInstagramIdSpec | src/lib/db.ts:25-32 | no result iff no user has the Instagram id; otherwise the first such user in insertion order |
| Db.ActiveForMediaSpec | src/lib/db.ts:62-69 | no result iff no automation is active for the media; otherwise the first active one for it in insertion order |
| Db.UserByInstagramId | src/lib/db.ts:25-32 | a user found by Instagram id is a stored user with that Instagram id |
| Db.ActiveForMedia | src/lib/db.ts:62-69 | an automation found for a media is a stored one for that media with `isActive` set |
| Keyed.Filter | src/lib/db.ts:52-60 | the filtered sequence is no longer than the input and holds only elements that meet the condition |
| Keyed.FilterMembers | src/lib/db.ts:98-100 | the filter keeps exactly the elements that meet the condition |
| Keyed.FilterConcat | src/lib/db.ts:52-60 | the filter distributes over concatenation, so it keeps insertion or append order |
| Db.OwnedBy | src/lib/db.ts:52-60 | the user's automations are exactly the stored automations with that `userId` |
| Db.LogsFor | src/lib/db.ts:98-100 | the logs of an automation are exactly the logs carrying its id |
| Db.HasSent | src/lib/db.ts:89-96 | true iff some log position holds a `sent` log for the rule and the commenter |
| Db.HasSentSpec | src/lib/db.ts:89-96 | a commenter has received a DM for a rule iff some log for the pair has status `sent`; `skipped` and `failed` logs never count |
| Db.HasSentAppend | src/lib/db.ts:89-96 | appending one log changes the answer only through that log |
| Db.IncrementDmsSpec | src/lib/db.ts:102-108 | the bump keeps the length and ids, raises `dmsSent` by one on the automation with the id, and changes nothing else (nothing at all for an unknown id) |
| Db.IncrementDms | src/lib/db.ts:102-108 | the bump keeps the length, and every automation is either unchanged or the one with the id with `dmsSent` raised by one |
| Db.SentCountZero | src/lib/db.ts:89-96 | a rule with no `sent` log counts zero `sent` logs |
| Db.PutFreshKeepsInv | src/lib/db.ts:43-46 | storing an automation under a new id, with `dmsSent` 0 and no `sent` log for that id, keeps ids unique and every `dmsSent` equal to the rule's number of `sent` logs |
| Db.RemoveKeepsInv | src/lib/db.ts:79-81 | deleting an automation keeps ids unique and every remaining `dmsSent` equal to its number of `sent` logs, although the logs stay |
| Db.ActiveForMediaAfterIncrement | src/lib/db.ts:102-108 | bumping a counter never changes which automation is active for a media, only its count |
| Db.Store.constructor | src/lib/db.ts:8-11 | the three stores start empty, with unique ids and every counter equal to its `sent` logs |
| Db.Store.CreateUser | src/lib/db.ts:16-19 | the user store becomes `set(user.id, user)`; the other stores are unchanged |
| Db.Store.GetUserById | src/lib/db.ts:21-23 | returns the stored user with the id, and nothing iff there is none |
| Db.Store.GetUserByInstagramId | src/lib/db.ts:25-32 | the loop returns the first user with the Instagram id in insertion order, or nothing |
| Db.Store.UpdateUser | src/lib/db.ts:34-40 | an unknown id returns nothing and changes nothing; a known one is replaced in place by the patched record with `updatedAt` refreshed, and that record is returned |
| Db.Store.CreateAutomation | src/lib/db.ts:43-46 | the automation store becomes `set(automation.id, automation)`; users and logs are unchanged |
| Db.Store.GetAutomationById | src/lib/db.ts:48-50 | returns the stored automation with the id, and nothing iff there is none |
| Db.Store.GetAutomationsByUserId | src/lib/db.ts:52-60 | the loop returns exactly the user's automations in insertion order |
| Db.Store.GetActiveAutomationByMediaId | src/lib/db.ts:62-69 | the loop returns the first active automation for the media, or nothing |
| Db.Store.UpdateAutomation | src/lib/db.ts:71-77 | an unknown id returns nothing and changes nothing; a known one is replaced in place by the patched record, the other automations are untouched |
| Db.Store.DeleteAutomation | src/lib/db.ts:79-81 | returns true iff the id was present, removes it, and leaves users and logs untouched |
| Db.Store.CreateLog | src/lib/db.ts:84-87 | the log array becomes the old one plus the log at the end |
| Db.Store.HasUserReceivedDM | src/lib/db.ts:89-96 | true iff some log for the rule and commenter has status `sent` |
| Db.Store.GetLogsByAutomationId | src/lib/db.ts:98-100 | exactly the automation's logs, in append order |
| Db.Store.IncrementDmsSent | src/lib/db.ts:102-108 | the automation store becomes the bumped one; users and logs are unchanged |
| Webhook.Handshake | src/app/api/webhook/instagram/route.ts:20-33 | status 200 with the challenge iff the mode is `subscribe` and the token equals the configured secret; otherwise 403 `Forbidden` |
| Webhook.ErrorText | src/app/api/webhook/instagram/route.ts:142 | a thrown `Error` logs its message; any other thrown value logs `Unknown error` |
| Webhook.NewLog | src/app/api/webhook/instagram/route.ts:118-126 | a log records the fresh id and time, the rule, the commenter's id and username, the comment text, the status and the error message given |
| Webhook.RequestFor | src/app/api/webhook/instagram/route.ts:108-113 | the DM goes from the owner's Instagram account with the owner's token, to the commenter, carrying the rule's message |
| Webhook.ProcessChange | src/app/api/webhook/instagram/route.ts:51-101 | one change never changes users, and every outcome other than skipped, sent or failed leaves the stores exactly as they were |
| Webhook.Reply | src/app/api/webhook/instagram/route.ts:76-101 | once a rule matched, the outcome is skipped, no owner, sent or failed; users never change, and a missing owner changes nothing |
| Webhook.Deliver | src/app/api/webhook/instagram/route.ts:107-145 | the send ends as sent or failed, never changes users, and appends exactly one log while keeping every earlier one |
| Webhook.ChangesRun | src/app/api/webhook/instagram/route.ts:49-146 | the inner loop yields one outcome per change until the first abort, which is the last outcome exactly when the run aborted; without an abort every change has its outcome |
| Webhook.EntriesRun | src/app/api/webhook/instagram/route.ts:48-147 | a run over the entries that did not abort holds no aborted outcome and exactly one outcome per change of every entry |
| Webhook.Post | src/app/api/webhook/instagram/route.ts:36-157 | a body that cannot be read, and an Instagram payload without `entry`, abort with the stores unchanged and no outcome; a POST that did not abort holds no aborted outcome |
| Webhook.MatchedRule | src/app/api/webhook/instagram/route.ts:51-67 | a change matched to a rule (the first active one for its media, whose keyword the text contains) is a comment with value, sender, media and text present |
| Webhook.ProcessChangeEffects | src/app/api/webhook/instagram/route.ts:51-145 | a change that matches no rule (not a comment, no active rule for the media, keyword absent, or a malformed change that aborts) leaves the store unchanged and writes no log; a matched change never aborts, never changes users, appends exactly one log when its outcome is skipped, sent or failed and none otherwise, and changes an automation only by counting a sent DM; the log carries the fresh id and time, the rule, the commenter's id and username and the comment text |
| Webhook.ReplyEffects | src/app/api/webhook/instagram/route.ts:76-145 | once a rule matched: the outcome is `Deduplicated` iff reply-once is on and a `sent` log exists for the commenter, `NoOwner` iff otherwise the owner is missing, and a send (sent or failed) in every other case; users never change, exactly one log for the rule and commenter is appended for skipped, sent and failed outcomes, and only a sent DM bumps the counter |
| Webhook.DeliverEffects | src/app/api/webhook/instagram/route.ts:107-145 | a successful send appends one `sent` log and bumps the rule's `dmsSent` by one; a failed send appends one `failed` log with the error text and leaves the counters alone; users are never changed |
| Webhook.MatchedOutcome | src/app/api/webhook/instagram/route.ts:76-145 | for a matched comment: skipped iff reply-once is on and a `sent` log exists for the commenter; otherwise `NoOwner` iff the owner is missing; otherwise the outcome is exactly the send oracle's answer, sent or failed with the error text, so a first comment under the default reply-once reaches the send |
| Webhook.DedupSkipsSend | src/app/api/webhook/instagram/route.ts:76-93 | a change is deduplicated iff its rule replies once per user and a `sent` log exists for the pair; then the step has the effects of `StepEffects` for that rule and commenter (exactly one `skipped` log appended, nothing else changed) and does not depend on the send oracle |
| Webhook.NoDedupWithoutReplyOnce | src/app/api/webhook/instagram/route.ts:76-113 | with `replyOncePerUser` off, every matching comment whose owner exists gets a send attempt: the outcome is exactly the oracle's answer, sent or failed with the error text |
| Webhook.AbortsExactly | src/app/api/webhook/instagram/route.ts:49-70 | a change throws exactly when it is a comment missing `value`, `from` or `media`, or missing `text` once an active automation exists for its media |
| Webhook.WellFormedNeverAborts | src/app/api/webhook/instagram/route.ts:53-57 | a comment change with value, sender, media and text present never aborts the batch |
| Webhook.AppendLogKeepsInv | src/app/api/webhook/instagram/route.ts:117-129 | appending a log, with the counter bump exactly for a `sent` log, keeps every `dmsSent` equal to the rule's number of `sent` logs |
| Webhook.ProcessChangeKeepsInv | src/app/api/webhook/instagram/route.ts:51-145 | each change keeps ids unique and every `dmsSent` equal to the rule's number of `sent` logs |
| Webhook.LogsWrittenConcat | src/app/api/webhook/instagram/route.ts:48-49 | the number of logs written by a sequence of outcomes adds up over concatenation |
| Webhook.ChangesRunEvolves | src/app/api/webhook/instagram/route.ts:49-146 | from any state, a run over one entry's changes keeps the users, only appends logs, and appends exactly one log per logging outcome; from a state with unique ids and counters equal to their `sent` logs, it keeps both |
| Webhook.EntriesRunEvolves | src/app/api/webhook/instagram/route.ts:48-147 | the same over all entries |
| Webhook.PostEvolves | src/app/api/webhook/instagram/route.ts:36-157 | the same for a whole POST, including the aborted cases |
| Webhook.OtherObjectsIgnored | src/app/api/webhook/instagram/route.ts:43-45 | a payload whose `object` is not `instagram` changes nothing |
| Webhook.ChangesRunConcat | src/app/api/webhook/instagram/route.ts:49-146 | a run over two consecutive change lists is the second run started from where the first ended, unless the first aborted |
| Webhook.AbortKeepsEarlierEffects | src/app/api/webhook/instagram/route.ts:152-156 | an exception in one change keeps the effects of the earlier changes and skips all later ones |
| Webhook.EntriesRunIsChangesRun | src/app/api/webhook/instagram/route.ts:48-147 | when every entry has `changes`, the nested loops equal one loop over all changes of all entries, in order |
| Webhook.MissingChangesAborts | src/app/api/webhook/instagram/route.ts:48-156 | an entry without `changes` throws: the POST aborts with exactly the state and outcomes of the changes of the earlier entries, and later entries are never handled |
| Webhook.WellFormedPayloadRunsToEnd | src/app/api/webhook/instagram/route.ts:36-157 | an Instagram payload whose entries all have `changes`, all well formed, is handled to the end with one outcome per change of every entry |
| Webhook.WellFormedBatchRunsToEnd | src/app/api/webhook/instagram/route.ts:49-146 | a list of well-formed changes runs to the end with one outcome per change, so failed sends do not stop later changes |
| Webhook.AfterSendSameRule | src/app/api/webhook/instagram/route.ts:117-129 | after a successful send, the same comment again finds the same rule (with its count bumped) and sees the `sent` log |
| Webhook.RepeatedCommentSentOnce | src/app/api/webhook/instagram/route.ts:76-129 | two identical qualifying comments with reply-once on, no earlier `sent` log for the commenter, the owner present and the oracle delivering the first send give outcomes sent then deduplicated, exactly one `sent` and one `skipped` log, and one bump of `dmsSent` |
| Webhook.HandleChange | src/app/api/webhook/instagram/route.ts:49-146 | the loop body's effect on the store is the reference step `ProcessChange` |
| Webhook.HandlePost | src/app/api/webhook/instagram/route.ts:36-157 | always answers `{ received: true }`, and the nested loops leave the store in the state `Post` computes |
| AutomationsApi.CreateDecision | src/app/api/automations/route.ts:37-89 | every rejection is an error response with status 400 or more; an accepted automation has the session user and the fresh id, is active, has sent nothing, and stores a keyword of at most 50 and a message of at most 1000 characters |
| AutomationsApi.GuardOrder | src/app/api/automations/route.ts:37-64 | no session gives 401; a body that is not JSON, or is `null`, gives 500; a missing or empty `mediaId`, `keyword` or `dmMessage` gives 400 exactly; then a keyword over 50 characters and a message over 1000 (both before trimming) give their 400s; every rejection is an error response |
| AutomationsApi.ConflictOnlyForSameUser | src/app/api/automations/route.ts:66-73 | a valid request gets 409 iff the first active automation for the media belongs to the session user, and is accepted otherwise |
| AutomationsApi.OtherOwnersNeverBlock | src/app/api/automations/route.ts:67-68 | when the first active automation for the media is another user's, the create goes ahead |
| AutomationsApi.AcceptedAutomation | src/app/api/automations/route.ts:76-89 | an accepted automation has the session user's id, is active, has sent nothing, stores the trimmed keyword and message (so at most 50 and 1000 characters), replies once per user unless the body says `false`, and carries the media fields of the body |
| AutomationsApi.AcceptKeepsInv | src/app/api/automations/route.ts:76-91 | storing an accepted automation under a fresh id with no `sent` log for it keeps ids unique and every `dmsSent` equal to its number of `sent` logs |
| AutomationsApi.NonObjectBodyMissingFields | src/app/api/automations/route.ts:41-50 | a JSON body that is not an object destructures to absent fields and gets the missing-fields 400, not the 500 |
| AutomationsApi.AcceptAppends | src/app/api/automations/route.ts:91 | with a fresh id the accepted automation is added once, at the end of the store |
| AutomationsApi.BlankKeywordStoredEmpty | src/app/api/automations/route.ts:45-83 | a whitespace-only keyword is accepted, stored as the empty string, and then matches exactly the blank comments |
| AutomationsApi.PostAutomation | src/app/api/automations/route.ts:33-102 | answers the guard chain's decision; a rejection leaves the store unchanged, an acceptance returns 201 with the automation and stores it with `set` while users and logs stay unchanged |
| AutomationsApi.ListAutomations | src/app/api/automations/route.ts:12-30 | without a session 401; otherwise 200 with exactly the session user's automations in insertion order |

## Left out

- The React pages and components, the OAuth login/callback/logout routes, the credentials test route and the Graph API client (`src/lib/instagram.ts`) are not part of this model. `sendInstagramDM` is an oracle in `Webhook.Env` that answers success or a thrown value.
- Cookie sessions (`src/lib/session.ts`) are out: the session is an optional user id passed to the handlers.
- `generateId`, `Date.now` and `delay` are out because they are clocks and randomness. Fresh ids and timestamps are parameters (`Webhook.Env.stamp`, and `id`/`now` in `AutomationsApi`), and `delay(1500)` is a no-op.
- Concurrency is out: requests are processed one after another. The check-then-act race between `hasUserReceivedDM` and `createLog` across concurrent webhook requests is not modelled.
- Unicode is out. Case folding covers ASCII letters only, and whitespace is the six ASCII whitespace characters. String lengths count characters, not UTF-16 code units.
- Console logging and the JSON pretty-printing of the payload are out: they have no effect on the state or the response.
- Values that do not have the declared TypeScript types are out. Examples: a number given as `keyword`, or `null` given as `replyOncePerUser`. The parsed create body has an `Option` per field. A body that is not JSON, or is `null`, is `None` (the 500 path). Any other JSON value that is not an object is a body with every field absent (`AutomationsApi.NonObjectBodyMissingFields`). A webhook payload that is a JSON value without an `object` property is a payload whose `objectKind` is not `instagram`.
- The routes for a single automation (PATCH, DELETE) are not part of this model. Store update and delete are modelled without owner checks.
- Db.UserPatch and Db.AutomationPatch have no `id` or `updatedAt` field. An update object that renames the record is out, as is one that sets a property explicitly to `undefined`.
- Db.Store.IncrementDmsSent: the source mutates the stored object in place, and any caller holding a reference sees the new count. The model replaces the record by value, so aliasing between stored and returned objects is not captured.
- The counter invariant `Db.Inv` is not claimed for `updateAutomation`: an update that sets `dmsSent` freely can break the equality of every `dmsSent` with its number of `sent` logs. Only the single-automation routes, which are not part of this model, call it, so no lemma states that it keeps that equality.
- Webhook.HandlePost: an exception abandons the rest of the batch, keeping earlier effects. Which exceptions arise is fixed by the payload's missing properties. Errors thrown by the store itself cannot happen in the model.
- Utils.TruncateText: the limit is an integer. The source's `maxLength` is a JavaScript number, so fractional and NaN limits are not modelled. For NaN, for example, `text.length <= NaN` is false and `slice(0, NaN)` is empty, giving "...".
- AutomationsApi.ListAutomations: the 500 response (`src/app/api/automations/route.ts:23-29`) is unreachable in the model, because the store lookup cannot throw.
- AutomationsApi.PostAutomation: `createdAt` and `updatedAt` take one time value, where the source reads the clock twice. The 500 response is reached only through an unparsable or `null` body (`body` is `None`), where reading the body or destructuring it throws.
