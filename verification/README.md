# Autopost bot core, modelled in Dafny

The bot posts a user's message to a Discord channel over and over, at a
configured interval plus a random extra delay. It does this on behalf of users
who hold a paid subscription. This project models the logic under the Discord,
aiohttp and asyncio plumbing, as pure functions over immutable values:

- **Sender** (`autopost.send_message`): the bounded retry loop over one POST
  per attempt. The network is replaced by the sequence of outcomes the
  attempts would have. Sleeping is recorded as the list of requested
  durations.
- **Scheduler** (`run_setup_continuously`, `startup_manager`): one iteration
  of a setup's posting loop, runs of several iterations, and the start-up
  pass that spawns one loop per running setup into the task table.
- **Store**, **Panel**, **Commands**, **Auth**, **Admin**: the transitions of
  the accounts document (`config.json`) made by these parts of the code:
  - the configuration loader and admin records;
  - the user control panel (token, create, edit, delete, start/stop);
  - the bulk commands;
  - login and logout;
  - the admin panel.
- **Subscriptions** (`subscription.py`): the claim-once, expire-on-check,
  extend state machine over the subscription records.
- **Utils**: the log filter that rewrites three emoji, and the token probe's
  verdict.
- **Strings**: Python's `str.strip()` and `str.replace()`.

Token validity, HTTP outcomes, the clock, generated ids, random draws and
`float()` parsing are parameters of the functions that need them. Every store
operation returns `Ok(new store)` or `Err(refusal)`; a refusal writes nothing.
Operations that change one entry state that nothing else changes
(`SameExcept`).

## Model

| member | source | states |
|---|---|---|
| Strings.Strip | models.py:54 | Python `strip()`: the result is a slice of the input with only whitespace before and after it; it neither starts nor ends with whitespace; it is empty exactly when the input is all whitespace |
| Strings.StripUnchanged | models.py:54 | a string without leading or trailing whitespace is its own strip |
| Strings.StripIdempotent | models.py:260 | stripping twice is stripping once |
| Strings.ReplaceAbsent | utils.py:14-16 | `replace` of a pattern that does not occur returns the input unchanged |
| Strings.ReplaceKeepsOut | utils.py:14-16 | a code point that is in neither the input nor the replacement is not in the result |
| Strings.ReplaceRemovesChar | utils.py:14-15 | replacing a one-code-point pattern by text without it removes every occurrence |
| Strings.ReplaceHead | utils.py:14-16 | the first code point of a replacement result is the replacement's after a match, the input's otherwise |
| Strings.ReplaceSkip | utils.py:14-16 | a prefix that lacks the pattern's first code point is copied through, and replacing continues on what follows |
| Strings.ReplaceMatch | utils.py:14-16 | a match at the start becomes the replacement, and replacing continues after it |
| Strings.ReplaceRemovesPair | utils.py:16 | replacing a two-code-point pattern by a text containing neither of its code points leaves no occurrence |
| Utils.RewriteRemovesEmoji | utils.py:14-16 | after the three replacements in order, none of ❌, ✅, ⚠️ occurs |
| Utils.SingleOccurs | utils.py:14-15 | a one-code-point pattern occurs exactly when that code point is present |
| Utils.RewriteIdentity | utils.py:13-16 | a message containing none of the three patterns is unchanged |
| Utils.RewriteCross | utils.py:14 | after an emoji-free prefix, ❌ becomes `[ERROR]` and the rest is rewritten in turn |
| Utils.RewriteCheck | utils.py:15 | after an emoji-free prefix, ✅ becomes `[SUCCESS]` and the rest is rewritten in turn |
| Utils.RewriteWarn | utils.py:16 | after an emoji-free prefix, ⚠️ (with its variation selector) becomes `[WARNING]` and the rest is rewritten in turn |
| Utils.Filter | utils.py:11-17 | the record always passes; a non-string message is untouched; a string message becomes its rewrite (each emoji turned into its tag, as Utils.RewriteCross, RewriteCheck and RewriteWarn state), with no emoji pattern left, and unchanged if it had none |
| Utils.ValidateToken | utils.py:33-54 | a token is valid exactly when the probe answers 200; any other status or an exception means invalid |
| Sender.Attempts | autopost.py:38-81 | from attempt k the sleeps are the pauses of consecutive attempts; the call ends on the first non-pausing reaction, which decides the result, or runs out of the range and returns false after exactly n POSTs |
| Sender.Send | autopost.py:14-81 | a failed token pre-check gives false with no POST and no sleep; never more than n POSTs; a success ends on a 200 |
| Sender.NoEarlyExit | autopost.py:47-52 | every attempt before the last one made was neither a 200 nor a 401 |
| Sender.AttemptsDeliveredIff | autopost.py:38-81 | from attempt k, delivery happens exactly when some attempt in k..n is a 200 reached through attempts none of which is a 401 or ends the loop |
| Sender.SendDeliveredIff | autopost.py:28-81 | the call returns true exactly when the token passes the pre-check and, within the first n outcomes, a 200 comes with no 401 before it |
| Sender.FirstOkEnds | autopost.py:47-49 | on success the last POST made is the first 200; no later outcome is consumed |
| Sender.UnauthorizedStops | autopost.py:50-52 | a 401 reached through pauses returns false at once, with one POST for it and no sleep after it |
| Sender.UnauthorizedFirst | autopost.py:50-52 | a 401 on the first attempt: one POST, no sleep, false |
| Sender.AlwaysServerError | autopost.py:58-63 | three 500 answers with three retries: three POSTs, sleeps 1 s and 2 s, false |
| Sender.RateLimitedExhausts | autopost.py:53-57 | 429s without a header consume the budget: n POSTs, n sleeps of 5 s, false (the fall-through return) |
| Sender.SendMessage | autopost.py:38-81 | the loop written with the source's branch structure issues exactly the POSTs and sleeps, and returns exactly the result, that `Send` describes |
| Sender.PauseStep | autopost.py:53-63 | a pausing attempt moves its sleep onto the sleeps already made and leaves the final result alone |
| Store.LoadConfig | config.py:10-23 | a missing file reads as two empty sections; an unreadable one raises; otherwise every key is kept, a section that is not an object becomes `{}`, and a missing section stays missing |
| Store.LoadConfigIdempotent | config.py:16-21 | loading what `load_config` produced changes nothing more |
| Store.AddAdmin | config.py:42-61 | an existing id is refused and nothing is written; a new id gets an enabled record with the password; no other admin changes |
| Store.IsAdmin | config.py:33-40 | true exactly for a present id whose flag is set; false when reading the document raised |
| Store.VerifyAdmin | config.py:64-72 | false for an unknown id; otherwise password equality alone |
| Store.AddAdminGrants | config.py:38-72 | after a successful `add_admin(u, p)`, `u` is an admin and `p` verifies |
| Store.VerifyIgnoresFlag | config.py:69-72 | the admin flag plays no part in the password check |
| Subscriptions.Create | subscription.py:27-48 | the new record is active, unclaimed, starts now and ends `days` days later; a fresh id adds exactly one key; nothing else changes |
| Subscriptions.Validate | subscription.py:50-75 | valid exactly when the id is known, not past its end, active, and unclaimed or claimed by the caller; an expired record is switched off before ownership is looked at; an unclaimed one is claimed; otherwise nothing is written |
| Subscriptions.ValidateFrame | subscription.py:50-75 | a check changes only the record asked about, and only its flag or its claim |
| Subscriptions.ClaimIsPermanent | subscription.py:67-73 | once claimed, a record keeps its claimant whoever checks it |
| Subscriptions.ValidOwnsRecord | subscription.py:67-75 | after a successful check by one user, no other user validates the record |
| Subscriptions.ValidateIdempotent | subscription.py:50-75 | checking again at the same time gives the same answer and writes nothing more |
| Subscriptions.Extend | subscription.py:94-109 | an unknown id is refused; otherwise the end moves `days` days later and the record is active again; nothing else changes |
| Subscriptions.ExtendRevives | subscription.py:98-109 | a record extended past now validates again for its owner |
| Subscriptions.FirstClaimedBy | subscription.py:77-87 | the first record in document order claimed by the user, with its id; none exactly when no listed record is claimed by the user |
| Subscriptions.FirstClaimedByComplete | subscription.py:81-87 | over the whole document, nothing is found exactly when no record is claimed by the user |
| Subscriptions.Lookup | subscription.py:89-92 | the record under the id, or nothing when it is unknown |
| Auth.Login | auth.py:10-45 | the subscription check runs first and its side effects stay; success exactly when it and the token are valid; a failure leaves the accounts alone; a new user gets an account with no setups; an existing one gets the new token and subscription id and keeps its setups |
| Auth.Logout | auth.py:47-71 | always reports success; an unknown user writes nothing; the token and subscription id go, and the account goes exactly when it has no setups |
| Auth.LogoutIdempotent | auth.py:53-64 | logging out twice is logging out once |
| Auth.LoginLogout | auth.py:28-64 | login then logout keeps exactly the setups the user had, without a token |
| Auth.IsLoggedIn | auth.py:73-83 | false without both a token and a subscription id, touching nothing; otherwise the answer and side effects of validating that subscription |
| Auth.LoginThenLoggedIn | auth.py:16-36 | right after a successful login the user is logged in |
| Auth.SubscriptionOf | auth.py:89-98 | nothing without a subscription id; otherwise the record it names, and nothing exactly when no record has that id |
| Panel.SetToken | models.py:52-67 | a blank stripped token or an invalid one is refused; otherwise the account is created empty if absent and only its token is set |
| Panel.CreateSetup | models.py:102-132 | a blank name is refused first; then a missing account or token key, then a duplicate; success adds exactly one setup with the defaults (no channel, "example", 1, 5, stopped) and touches nothing else |
| Panel.ReadForm | models.py:260-282 | a form is accepted exactly when channel and message are non-blank, the interval parses and is positive, and the random interval is blank or parses and is not negative. Each failure gets its own error, in the source's order: empty channel, empty message, interval not a number, interval not positive, random interval not a number, random interval negative. An accepted form carries those values, with 0 for a blank random interval |
| Panel.EditSetup | models.py:256-292 | the edit succeeds exactly when the form is accepted and the user has an account; a rejected form is refused with its error and writes nothing; a missing account raises; success replaces channel, message and both intervals with the form's, takes `running` from the dialog's snapshot, re-creates a setup deleted meanwhile, and changes no other setup or user |
| Panel.SubmittedExample | models.py:260-282 | the form "123", "hi", "2", "5" is accepted as those values |
| Panel.EditReadBack | models.py:284-291 | editing with that form reads back those values, the snapshot's flag and the new time |
| Panel.SetRunning | models.py:335-375 | start/stop: a missing account raises, a missing setup is reported; otherwise only the chosen setup's flag changes |
| Panel.StartThenStop | models.py:358-369 | stopping a setup just started restores the store when it was stopped before |
| Panel.MenuGates | models.py:427-540 | when the menu's checks pass on an unchanged store, creating under a new non-blank name succeeds, and managing offers a non-empty list of setups, each of which can be started or stopped |
| Commands.DeleteSetup | main.py:518-534 | an unknown user or setup is refused and writes nothing; otherwise exactly that setup goes. The confirm button of the delete dialog (models.py:163-196) does the same checks and the same delete |
| Commands.WithRunning | main.py:553-554 | same setups, each with the given flag and otherwise unchanged |
| Commands.StartAll | main.py:539-561 | refused without setups, or with a missing, empty or invalid token; otherwise every setup of the user is flagged running and nothing else changes; no loop is spawned |
| Commands.StopAll | main.py:566-583 | refused without setups; otherwise no setup of the user is running and nothing else changes; there is no token check |
| Commands.BulkIdempotent | main.py:553-576 | starting or stopping all a second time changes nothing more |
| Scheduler.TaskKeyInjective | main.py:56 | task keys of user ids without an underscore determine the user and the setup |
| Scheduler.TaskKeyCollision | main.py:56 | for arbitrary ids the key is ambiguous |
| Scheduler.Trunc | main.py:70-72 | `int()` of a float truncates toward zero |
| Scheduler.Delay | main.py:70-97 | the wait lies between the truncated interval and that plus the truncated random interval; a negative random interval makes `randint` raise |
| Scheduler.DelayCoversRange | main.py:95-97 | every wait in that range is drawn by some value |
| Scheduler.ShortIntervalWait | main.py:70-97 | a 0.1-minute interval without jitter waits six seconds |
| Scheduler.SwitchedOff | main.py:81-85 | clearing one setup's `running` flag keeps the account's token, subscription id and every other setup as they were |
| Scheduler.Body | main.py:60-99 | a setup switched off in the fresh store ends the loop with no send; then an empty channel does (tested before stripping); then an invalid token switches off exactly that setup, leaving the rest of the account (token, subscription id, other setups) and every other account as they were, and ends the loop; otherwise the snapshot's message is posted to the snapshot's stripped channel and the loop waits, whether or not the send succeeded |
| Scheduler.StepAsWritten | main.py:58-109 | a `KeyError` ends the loop; any other exception ends it after 60 s |
| Scheduler.Step | main.py:101-106 | as the handler intends, an unexpected exception waits 60 s and the loop goes on |
| Scheduler.StepsAgree | main.py:58-109 | the two versions differ only where the written one ends after an unexpected exception and the intended one waits |
| Scheduler.TransientErrorOrphans | main.py:58-106 | as written, a transient error ends the loop of a setup still switched on in the store |
| Scheduler.Loop | main.py:58-109 | a run without rounds is empty; a run that has not ended has one wait per round and leaves the task table alone; a run that has ended made fewer waits than rounds and its key has left the table; at most one delivery per round |
| Scheduler.LoopFirstRound | main.py:58-109 | when the first round stops, the run is that round's delivery, no wait, the stop's reason and pause, and the task table without the loop's key; when it waits, its seconds are the first wait and its delivery comes first |
| Scheduler.DeliveredShift | main.py:58-109 | the deliveries of the first n rounds are round 0's, then those of the first n - 1 rounds of the loop started one round later |
| Scheduler.LoopDeliveries | main.py:88-99 | a run's deliveries are, in round order, the sends of every round that waited and then of the round that stopped, each made on the store that round found |
| Scheduler.DeliveredSnapshot | main.py:69-90 | every delivery of the first n rounds goes to the snapshot's stripped channel with the snapshot's message |
| Scheduler.LoopPostsSnapshot | main.py:69-90 | a loop posts only the message it was started with, to the channel it was started with, whatever edits reach the store between rounds |
| Scheduler.LoopWaits | main.py:58-99 | every wait of a run is the `Wait` of the round at that position, on the store that round found |
| Scheduler.LoopEndsAtFirstStop | main.py:58-109 | a run that has ended stopped in the round right after its last wait, for the recorded reason and with the recorded pause |
| Scheduler.LoopStoreEnded | main.py:58-109 | a run that has ended leaves the store its stopping round left, that round running on the store it found |
| Scheduler.LoopStoreRunning | main.py:58-109 | a run in which every round waited leaves the store its last round left, that round running on the store it found |
| Scheduler.LoopTokenSwitchOff | main.py:79-86 | a run that ended on an invalid token, in any round, leaves the store that round found with exactly that setup switched off and nothing else changed |
| Scheduler.InvalidTokenEndsLoop | main.py:79-86 | a running setup with a channel whose token fails the check ends its loop after one round: nothing sent, no wait, the setup switched off, the key removed |
| Scheduler.LoopHonoursStop | main.py:61-67 | a loop whose flag has been switched off before a round without an exception has ended by that round and sent nothing in it |
| Scheduler.SpawnUser | main.py:128-138 | for one user with a token, the keys of the running setups are added, each with that setup's snapshot and the token, and existing handles are kept |
| Scheduler.Rehydrate | main.py:118-138 | existing handles are kept; exactly the keys of running setups of users with a non-empty token are added, each with that setup's snapshot and token; a second pass adds nothing |
| Scheduler.Startup | main.py:113-142 | an unreadable file, a top level that is not an object, or a missing accounts section spawns nothing and leaves the task table as it was; otherwise the pass over the accounts section adds exactly the running keys of token holders and keeps the existing handles |
| Scheduler.KeysAddUser | main.py:126-138 | a user with a token contributes exactly the keys of their running setups |
| Scheduler.KeysSkipUser | main.py:122-124 | a user without a token contributes nothing |
| Admin.ResetToken | admin_models.py:129-141 | an unknown user id writes nothing; otherwise only that user's token goes |
| Admin.Ban | admin_models.py:148-158 | an unknown user id writes nothing; otherwise that account goes and every other one stays |
| Admin.DeleteSubscriptionAsWritten | admin_models.py:112-122 | an unknown id writes nothing; otherwise the subscriptions file is unchanged and the reduced map overwrites the accounts document |
| Admin.DumpHidesSections | admin_models.py:120-121 | loading a dumped subscriptions map leaves both sections missing, so later `config["accounts"]` reads raise `KeyError` and no admin is found |
| Admin.DeleteSubscriptionLosesAccounts | admin_models.py:119-121 | as written, a successful delete keeps the record and loses every account and admin |
| Admin.DeleteSubscription | admin_models.py:112-122 | the intended delete removes exactly that record and leaves the accounts document alone |
| Admin.UpdateSubscriptionAsWritten | admin_models.py:166-182 | unknown id, then unknown package, write nothing; otherwise the subscriptions file is unchanged and the updated map overwrites the accounts document |
| Admin.UpdateSubscriptionLosesAccounts | admin_models.py:178-181 | as written, a successful update keeps the old package and loses every account and admin |
| Admin.UpdateSubscription | admin_models.py:166-182 | the intended update sets the package and its day count on exactly that record, keeps its other fields, and leaves the accounts document alone |
| Admin.RunningNames | admin_models.py:268 | exactly the names of the running setups |
| Admin.ActiveSetups | admin_models.py:268-269 | the count is the number of running setups (the size of `RunningNames`); it is at most the number of setups, equal exactly when all run, zero exactly when none does |
| Admin.RunningCount | admin_models.py:268-269 | the same bounds, stated on the set of running names |
| Admin.SubsetCard | admin_models.py:268-269 | a subset is no larger than its set, and as large only when it is the set |
| Admin.BulkCounts | admin_models.py:268-269 | once `start_all` succeeds, the listing's active count for the user equals the number of their setups; once `stop_all` succeeds, it is zero |
| Admin.ActiveIds | admin_models.py:24 | exactly the ids of the records whose `active` flag is set |
| Admin.ActiveSubscriptions | admin_models.py:24 | the count is the number of active records (the size of `ActiveIds`); it is at most the number of records, equal exactly when all are active |
| Admin.ActiveCount | admin_models.py:24 | the same bounds, stated on the set of active ids |
| Admin.Dashboard | admin_models.py:24-32 | the active count is the number of active records, so bounded by the records; the user and admin totals are the sizes of the sections; there are three packages |
| Admin.RowOf | admin_models.py:268-269 | a listing line has the user's number of setups and, as its active count, the number of them running, which is at most that |
| Admin.Rows | admin_models.py:267-275 | one line per listed user, in order |
| Admin.ListUsers | admin_models.py:257-277 | nothing when there are no accounts; otherwise the first ten accounts (or all, if fewer) in document order, without repetition, each with its counts |
| Admin.KeysCount | admin_models.py:267 | a duplicate-free listing of a map's keys is as long as the map |
| Admin.ClaimedBy | admin_models.py:315-318 | exactly the listed records claimed by the user, each with its package, and no record twice when the listing has no repeated id |
| Admin.ClaimedByAppend | admin_models.py:315-318 | document order is kept: the claimed records of a split listing are those of its first part followed by those of its second |
| Admin.FindUser | admin_models.py:293-323 | nothing for an unknown user id; otherwise the setup counts, whether a token key is stored, and exactly the subscriptions claimed by that id: the listing Admin.ClaimedBy gives, with packages, in document order, each once |

## Left out

- File I/O and JSON encoding: each document is an in-memory value. Loading is the normalisation of `load_config` (Store.LoadConfig). A failed save is not modelled.
- Record fields are typed. Every setup has a message, an interval and the other fields, and every account has a setups map. This is because every writer in the code creates them. So a `KeyError` from a missing field appears only through the loop's fault input.
- asyncio concurrency and real sleeps. Sleeps are recorded as durations. Races between loops and dialogs writing the same file (last writer wins) are not modelled. Other writers between loop rounds appear as arbitrary store edits in Scheduler.Loop.
- The network:
  - `validate_token` is Utils.ValidateToken over the probe's outcome. Elsewhere its verdict is a boolean parameter.
  - The POSTs of `send_message` are a sequence of attempt outcomes.
- `datetime.now()` and ISO timestamps are integer seconds; `timedelta(days)` is days × 86400.
- `uuid4` subscription ids are a parameter.
- `float()` parsing is a parameter (`parse`). The delay arithmetic uses exact reals, not binary floating point.
- Panel.ReadForm: `float()` also accepts "nan" and "inf", which reals cannot express. `nan <= 0` is false, so the dialog saves a NaN interval; the loop's `int(interval * 60)` then raises (main.py:70-72), which ends that loop through the generic handler. A NaN or infinite interval is not modelled; `parse` returns only finite values.
- `random.randint(0, R)` is a natural-number draw reduced modulo R+1. Every value in range is reachable (Scheduler.DelayCoversRange).
- Discord presentation and I/O:
  - embeds, dialogs, views, DMs, `send_ephemeral`, bot commands and events;
  - `BroadcastModal`, `CreateSubscriptionModal`'s messages, the dashboard's recent-subscriptions list, the status button.
- admin_auth.py is not part of this model: its decision is `is_admin` or `verify_admin`, both modelled in Store.
- exceptions.py is not part of this model; the `Refusal` datatype stands for its error classes.
- `setup_logger`: logging configuration.
- Scheduler.StepAsWritten: an exception is modelled as raised at the start of an iteration, before anything is sent. The exceptions that can be raised later are folded into that one point: the store read, a save, the sender. The exception from `randint` is the one modelled where it happens.
- Scheduler.Startup: of the exceptions the `try` in `startup_manager` can catch, those from `load_config` and from a missing accounts section are modelled (Store.LoadConfig's errors); both are raised before any loop is spawned. The typed records leave no other one. The one-shot `startup_manager.stop()` is the single call of the method.
- The loop always calls the sender with the default three retries. Sender.Send is general in `n`.
- Sender.Send: the request body `{"content": content}` (autopost.py:36) is not a parameter, because the server's answers are inputs and do not depend on it. The text each call posts is recorded in the loop's `Delivery` (Scheduler.Body, Scheduler.LoopPostsSnapshot).

## Findings

| source | as written | input that shows it | evidently intended | confidence | as-written member | corrected member |
|---|---|---|---|---|---|---|
| admin_models.py:120-121 | the reduced subscriptions map is saved with `save_config`, over `config.json`; `subscriptions.json` is not written. The accounts and admins sections are gone, so later reads of `config["accounts"]` raise `KeyError` | any existing subscription id | remove the record from `subscriptions.json` (`save_subscriptions`) | high, not executed | Admin.DeleteSubscriptionAsWritten, Admin.DeleteSubscriptionLosesAccounts, Admin.DumpHidesSections | Admin.DeleteSubscription |
| admin_models.py:179-181 | the updated subscriptions map is saved with `save_config`, over `config.json`; the record keeps its old package. The accounts and admins sections are gone, as in the row above | an existing id with a different valid package | write the record to `subscriptions.json` (the line's own comment asks for `save_subscriptions`) | high, not executed | Admin.UpdateSubscriptionAsWritten, Admin.UpdateSubscriptionLosesAccounts | Admin.UpdateSubscription |
| main.py:58-59, 104-106 | the `try` encloses the `while`, so after an unexpected exception the loop sleeps a minute and ends, while the setup stays switched on | a running setup whose iteration raises once, e.g. an unreadable `config.json` | "wait one minute before trying again": sleep 60 s and continue the loop | medium, not executed | Scheduler.StepAsWritten, Scheduler.TransientErrorOrphans | Scheduler.Step |
