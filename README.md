# Member certificate reconciliation and visiting/transfer references

This project models two pieces of the membership application of a virtual-aviation network
division in Dafny.

1. **The `Members:CertUpdate` console command.**
   - `fire` clamps the batch size to 10 000. It picks the accounts that are due by a tier
     (hourly, daily, weekly, monthly or full), orders them by `cert_checked_at` (NULLs first)
     and keeps the first `max_members`. It then hands every account with an id of at least
     800 000 to `processMember`.
   - A force mode processes a single account looked up by id. It exits with code 1 when the
     account is missing and 0 otherwise.
   - `processMember` fetches the member's registry record and deletes the account when the
     registry reports the "no longer exists" sentinel.
   - Otherwise, inside one database transaction, `processMember` does the following in order:
     - syncs the names, check time and inactivity flag;
     - opens or closes the network ban;
     - syncs the registration date and affiliation state;
     - grants the ATC rating;
     - looks up the previous rating, or purges training and admin qualifications;
     - adds the pilot ratings.
2. **The `Reference` model of the visiting/transfer module.**
   - Five status codes (draft 10, requested 30, under review 50, accepted 90, rejected 95).
   - The "submitted" subset.
   - The status labels.
   - The reference-request token (14 days).
   - The guarded `submit` transition from requested to under review.

Modules:

- `Wrappers` (`wrappers.dfy`): `Option` and `Outcome`.
- `Members` (`members.dfy`):
  - qualifications, bans and the `Member` row;
  - the `Account` class, whose fields the command updates in place.
- `Planner` (`planner.dfy`): the clamp, the tiers and the ordered, limited query of `fire`.
- `Reconciliation` (`reconciliation.dfy`):
  - `Reconcile`, the specification of one `processMember` run as a function of the row
    before the run and the registry's answers;
  - the properties of that run.
- `CertUpdateCommand` (`command.dfy`):
  - the command as a class with a transaction-call log;
  - `Fire`, which loops over the batch;
  - `ProcessMember` and its steps, each method proved against the specification functions.
- `Visittransfer` (`reference.dfy`): the `Reference` class and its status functions.

Behaviour reproduced as the code has it:

- **Force mode reads an option the signature does not declare.**
  - `fire` reads the option `force-update`, but the signature lists only `--type` and `--force`.
  - Reading an undeclared option makes the console input throw.
  - So when the console declares exactly the signature's options, every run ends with that
    exception before any batch is planned (`ReadOption`, `UndeclaredForceOptionThrows`).
  - Which options are declared depends on the console base class, which is not part of this
    model. The declared set is therefore an input of `Fire`.
- **The tier uses only the first character of `--type`, case-sensitively.**
  - `Hourly`, as the help text spells it, runs the full tier (`CapitalisedTypeRunsFullTier`).
  - An empty value (`--type ""`) has no first character. PHP raises an "uninitialized string
    offset" error, the framework turns it into an exception, and the run ends before any
    query (`TierOf`, `Fire`).
- **`DB::commit()` still runs after the catch block has called `DB::rollback()`.**
  - The call log of such a run is `[Begin, Rollback, Commit]` (`CommitFollowsRollback`).
- **A failed previous-rating lookup rolls the whole transaction back.**
  - The lookup is made only for a rating of 8 or more (line 213).
  - The lookup is inside the `try`, so the exception reaches the rollback.
- **Only ratings 8 and 9 are kept from non-division members.**
  - Higher ratings are granted whatever the state.
- **Deleted accounts drop out of later queries.**
  - An account deleted on the registry's "no longer exists" signal is marked deleted.
  - Neither the tier query nor `findOrFail` returns it afterwards.
- **`is_submitted` reads `state`, not `status`** (see Findings).
- **Qualifications repeat on a rerun** (see Findings).

## Model

| member | source | states |
|---|---|---|
| Planner.ClampBatchSize | app/Console/Commands/MembersCertUpdate.php:37-39 | the batch size is the requested one when at most 10 000, else 10 000: never more than either |
| Planner.TierOf | app/Console/Commands/MembersCertUpdate.php:57-89 | there is no tier (taking the first character throws) exactly when the `--type` value is the empty string; a value starting with `h`, `d`, `w` or `m` picks the hourly, daily, weekly or monthly tier, and any other value, or none, picks the full tier |
| Planner.CapitalisedTypeRunsFullTier | app/Console/Commands/MembersCertUpdate.php:21 | a `--type` starting with a capital letter (as the help text spells the tiers) runs the full tier |
| Planner.Filter | app/Console/Commands/MembersCertUpdate.php:59-89 | the tier keeps exactly the table rows that are not deleted and match its `where` clauses (hourly, daily, weekly, monthly); the full tier keeps every row of a table with no deleted rows |
| Planner.FilterKeepsDistinct | app/Console/Commands/MembersCertUpdate.php:55-89 | the filtered query returns no row twice |
| Planner.SortBy | app/Console/Commands/MembersCertUpdate.php:91 | ordering returns a permutation of its input sorted ascending with NULL keys first |
| Planner.Insert | app/Console/Commands/MembersCertUpdate.php:91 | inserting one row into a sorted list gives a sorted permutation of the list plus that row |
| Planner.Take | app/Console/Commands/MembersCertUpdate.php:92 | `limit` returns a prefix, no longer than a non-negative limit, and shorter than the input only when the limit is reached |
| Planner.OrderedSelection | app/Console/Commands/MembersCertUpdate.php:91 | the ordered query is a permutation of the tier's rows, sorted by `cert_checked_at` with NULLs first |
| Planner.Plan | app/Console/Commands/MembersCertUpdate.php:91-93 | the batch is sorted by `cert_checked_at`, has at most `limit` rows, holds only table rows that are not deleted and match the tier, and repeats none |
| Planner.PlanFillsToLimit | app/Console/Commands/MembersCertUpdate.php:91-93 | a selected row is left out of the batch only when the limit is non-negative and the batch has reached it |
| Planner.PlanTakesStalestFirst | app/Console/Commands/MembersCertUpdate.php:91-93 | a matching row left out of the batch was checked no earlier than any row taken, and rows are left out only when the batch is full |
| CertUpdateCommand.ReadOption | app/Console/Commands/MembersCertUpdate.php:42 | reading an option throws exactly when the command does not declare it, and otherwise gives its value, or null when it has none |
| CertUpdateCommand.ForceTarget | app/Console/Commands/MembersCertUpdate.php:42-44 | force mode is entered exactly when `force-update` is declared and given a value PHP takes as true, and targets that value |
| CertUpdateCommand.UndeclaredForceOptionThrows | app/Console/Commands/MembersCertUpdate.php:19-22 | when the console declares only the signature's options (`type`, `force`), reading `force-update` throws and force mode is never entered |
| CertUpdateCommand.ParseId | app/Console/Commands/MembersCertUpdate.php:44 | a key names an id exactly when it is a non-empty string of digits |
| CertUpdateCommand.ParseIdOfDecimal | app/Console/Commands/MembersCertUpdate.php:44 | a key written as the decimal digits of an id parses to that id |
| CertUpdateCommand.ParseIdLeadingZero | app/Console/Commands/MembersCertUpdate.php:44 | a leading zero does not change the id a digit key names |
| CertUpdateCommand.FindOrFail | app/Console/Commands/MembersCertUpdate.php:43-48 | the lookup returns a table account, not deleted, whose id is the key, and fails only when no such account exists |
| CertUpdateCommand.LegacyAccountSkipped | app/Console/Commands/MembersCertUpdate.php:102-105 | outside force mode an account below id 800 000 is left as it was and makes no transaction call |
| CertUpdateCommand.VisitedAll | app/Console/Commands/MembersCertUpdate.php:102-107 | the rows after the loop are, position by position, the rows before it each visited once |
| CertUpdateCommand.MembersCertUpdate.Fire | app/Console/Commands/MembersCertUpdate.php:36-110 | reading an undeclared option, or an empty `--type` value, ends the run with the exception and nothing processed; force mode exits 1 with nothing processed when the account is missing, else processes it alone and exits 0; otherwise the walked batch is the plan for the tier and the clamped size; every batch row ends as visiting its old state yields, every other row is unchanged, and the transaction calls are those of the batch in order |
| CertUpdateCommand.MembersCertUpdate.ProcessBatch | app/Console/Commands/MembersCertUpdate.php:102-107 | the loop leaves each batch row as visiting it yields and logs the rows' transaction calls in batch order |
| CertUpdateCommand.MembersCertUpdate.VisitAt | app/Console/Commands/MembersCertUpdate.php:102-107 | one iteration changes only the current row, to what visiting it yields, and appends its calls after those of the rows before it |
| CertUpdateCommand.MembersCertUpdate.Visit | app/Console/Commands/MembersCertUpdate.php:104-106 | a legacy row outside force mode is skipped; any other row is processed |
| CertUpdateCommand.MembersCertUpdate.ProcessMember | app/Console/Commands/MembersCertUpdate.php:113-260 | the run's outcome and the stored row are those of `Reconcile` on the row before the run, and the transaction calls are begin, then rollback when it failed, then commit |
| CertUpdateCommand.MembersCertUpdate.SyncMember | app/Console/Commands/MembersCertUpdate.php:136-210 | the steps from the name sync to the ATC grant leave the row as their specification gives |
| CertUpdateCommand.MembersCertUpdate.SyncNames | app/Console/Commands/MembersCertUpdate.php:136-155 | names change only to non-empty strings, `cert_checked_at` becomes now, `is_inactive` becomes rating < 0 |
| CertUpdateCommand.MembersCertUpdate.SyncNetworkBan | app/Console/Commands/MembersCertUpdate.php:161-182 | the bans become those of the acquire-then-release rule for the reported rating |
| CertUpdateCommand.MembersCertUpdate.SyncPlacement | app/Console/Commands/MembersCertUpdate.php:184-200 | `joined_at` becomes the registration date and the state becomes what state determination gives |
| CertUpdateCommand.MembersCertUpdate.GrantAtcRating | app/Console/Commands/MembersCertUpdate.php:202-210 | the classified ATC rating is added unless it is 8 or 9 and the member is outside the division |
| CertUpdateCommand.MembersCertUpdate.UpdateQualifications | app/Console/Commands/MembersCertUpdate.php:212-244 | the previous-rating step or the purge, then the pilot ratings; failure exactly when a rating of 8 or more meets a lookup that throws |
| CertUpdateCommand.MembersCertUpdate.AddPilotQualifications | app/Console/Commands/MembersCertUpdate.php:238-244 | each pilot qualification is added in order, as `addQualification` would |
| Reconciliation.SyncedName | app/Console/Commands/MembersCertUpdate.php:136-137 | a name takes the feed's value exactly when that value is a string PHP does not call empty |
| Reconciliation.PurgeTrainingAndAdmin | app/Console/Commands/MembersCertUpdate.php:222-235 | after the purge no ATC-training, pilot-training or admin qualification is left and every other one is kept |
| Reconciliation.PurgeCounts | app/Console/Commands/MembersCertUpdate.php:222-235 | the purge removes every copy of a training or admin qualification and keeps every copy of the others |
| Reconciliation.PurgeDistributes | app/Console/Commands/MembersCertUpdate.php:222-235 | the purge works element by element, so the kept qualifications keep their order |
| Reconciliation.Reconcile | app/Console/Commands/MembersCertUpdate.php:113-260 | the run fails without change exactly when the fetch fails, and deletes exactly on the sentinel; it rolls back exactly when a rating of 8 or more meets a failed previous-rating lookup; otherwise it commits with each name changed only by a non-empty string, `cert_checked_at` = now, `is_inactive` = rating < 0, the registration date and the determined state, and every other scalar field kept |
| Reconciliation.NetworkBanLifecycle | app/Console/Commands/MembersCertUpdate.php:161-182 | a ban (started now, instigated by the system account) is appended only for rating 0 with no running ban; the running ban is closed at now only for a positive rating, with nothing else changed; otherwise the bans stay as they were |
| Reconciliation.AtMostOneActiveNetworkBan | app/Console/Commands/MembersCertUpdate.php:161-182 | at most one network ban stays active, a rating of 0 leaves the member banned and a positive rating leaves it unbanned |
| Reconciliation.DowngradePurgesTrainingAndAdmin | app/Console/Commands/MembersCertUpdate.php:222-244 | below rating 8 the only training or admin qualifications left are the pilot classifier's, and every other qualification held is kept |
| Reconciliation.InstructorKeepsHistory | app/Console/Commands/MembersCertUpdate.php:212-221 | from rating 8 up no qualification is removed and a previous rating found in the registry is held afterwards |
| Reconciliation.AtcGrantApplied | app/Console/Commands/MembersCertUpdate.php:203-210 | when the grant is not gated, the classified ATC rating is held afterwards (unless the purge removes it) |
| Reconciliation.AtcGrantSkipped | app/Console/Commands/MembersCertUpdate.php:203-244 | when the grant is gated, every qualification afterwards was held before, is the previous rating or is a pilot rating |
| Reconciliation.TransactionCallsOfRun | app/Console/Commands/MembersCertUpdate.php:132-257 | the transaction calls of a run depend only on the registry's answers for the account |
| Reconciliation.CommitFollowsRollback | app/Console/Commands/MembersCertUpdate.php:248-257 | a rolled-back run leaves the row as it was and still commits after rolling back |
| Reconciliation.RerunStep | app/Console/Commands/MembersCertUpdate.php:203-221 | a run on the example record (an instructor in the division, grant I1, previous rating C1) commits after adding I1 and then C1 by `addQualification` |
| Reconciliation.AlternatingAdds | app/Console/Commands/MembersCertUpdate.php:206 | two different qualifications of one kind added one after the other are both appended, and both again when added a second time |
| Reconciliation.RerunRepeatsQualifications | app/Console/Commands/MembersCertUpdate.php:203-221 | an instructor in the division whose grant (I1) and previous rating (C1) differ gets `[I1, C1]` from the first run and `[I1, C1, I1, C1]` from a second run on the same record |
| Reconciliation.PilotRerunRepeats | app/Console/Commands/MembersCertUpdate.php:238-244 | adding two different pilot ratings of one kind to a list that ends with them appends both again |
| Reconciliation.RerunUnlessHeldAddsNothing | app/Console/Commands/MembersCertUpdate.php:203-244 | with the "add unless held" rule, adding a run's qualifications (ATC grant, previous rating, pilot ratings) again to its own result changes nothing, and the example's first run still gives `[I1, C1]` |
| Members.LatestOfKind | app/Console/Commands/MembersCertUpdate.php:205 | the latest qualification of a kind is one the member holds, and there is none exactly when no held qualification has that kind |
| Members.LatestOfKindIsLast | app/Console/Commands/MembersCertUpdate.php:205 | the latest qualification of a kind sits at a position after which no qualification of that kind follows |
| Members.AddQual | app/Console/Commands/MembersCertUpdate.php:206 | `addQualification` appends the qualification exactly when it is not already the latest of its kind, and it is the latest of its kind afterwards |
| Members.AddAll | app/Console/Commands/MembersCertUpdate.php:238-244 | adding a list keeps every held qualification in place, holds every added one, and adds nothing else |
| Members.RemoveKind | app/Console/Commands/MembersCertUpdate.php:224-235 | deleting a kind keeps exactly the qualifications of other kinds |
| Members.RemoveKindCounts | app/Console/Commands/MembersCertUpdate.php:224-235 | deleting a kind removes every copy of that kind and keeps every copy of the others |
| Members.RemoveKindDistributes | app/Console/Commands/MembersCertUpdate.php:224-235 | deleting a kind works element by element, so the kept qualifications keep their order |
| Members.AddQualUnlessHeld | app/Console/Commands/MembersCertUpdate.php:206 | the intended rule appends the qualification exactly when the account does not hold it yet, and it is held afterwards |
| Members.AddAllUnlessHeld | app/Console/Commands/MembersCertUpdate.php:238-244 | adding a list by the intended rule keeps the old list as a prefix and holds exactly the old and the added qualifications |
| Members.AddAllUnlessHeldIdempotent | app/Console/Commands/MembersCertUpdate.php:238-244 | with the intended rule a second pass over the same list changes nothing, and the rule holds the same qualifications as the rule as written |
| Members.NetworkBanAtIsFirst | app/Console/Commands/MembersCertUpdate.php:177-178 | `network_ban` is the first active network ban, and there is none exactly when no ban is an active network ban |
| Members.ActiveNetworkBansPositive | app/Console/Commands/MembersCertUpdate.php:163 | `is_network_banned` holds exactly when at least one network ban is active |
| Members.Account.Restore | app/Console/Commands/MembersCertUpdate.php:249 | the rollback puts the row back to the state taken at `beginTransaction` |
| Members.Account.AddQualification | app/Console/Commands/MembersCertUpdate.php:206 | the qualification list becomes that of `addQualification`, and the result says whether it grew |
| Members.Account.DeleteQualificationsOfKind | app/Console/Commands/MembersCertUpdate.php:224-235 | the deletion loop removes exactly the qualifications of one kind |
| Visittransfer.IsSubmittedStatus | app/Modules/Visittransfer/Models/Reference.php:34-38 | the submitted statuses are exactly the status codes from 50 up; draft, requested and a missing value are not submitted |
| Visittransfer.StatusString | app/Modules/Visittransfer/Models/Reference.php:115-129 | a label exists exactly for the five status codes |
| Visittransfer.StatusStringInjective | app/Modules/Visittransfer/Models/Reference.php:115-129 | no two status codes share a label |
| Visittransfer.Reference.IsRequested | app/Modules/Visittransfer/Models/Reference.php:110-113 | `is_requested` holds exactly for status 30, which is not a submitted status |
| Visittransfer.Reference.IsSubmitted | app/Modules/Visittransfer/Models/Reference.php:105-108 | `is_submitted` as written holds exactly when `state` is set to 50, 90 or 95, so never when `state` is missing |
| Visittransfer.Reference.IsSubmittedByStatus | app/Modules/Visittransfer/Models/Reference.php:34-38 | the status is a code from 50 up, which excludes requested |
| Visittransfer.Reference.StatusStringAttribute | app/Modules/Visittransfer/Models/Reference.php:115-129 | `status_string` is defined exactly for the five codes, and is "Requested" for a requested reference |
| Visittransfer.Reference.GenerateToken | app/Modules/Visittransfer/Models/Reference.php:131-136 | the token is a reference-request token for this reference, expiring after 20 160 minutes |
| Visittransfer.Reference.GuardAgainstReSubmittingReference | app/Modules/Visittransfer/Models/Reference.php:147-152 | the guard passes exactly for status 30 and otherwise raises the already-submitted error for this reference |
| Visittransfer.Reference.Submit | app/Modules/Visittransfer/Models/Reference.php:138-145 | a requested reference gets the content and status 50; any other reference raises the error and nothing changes |
| Visittransfer.SubmitTwice | app/Modules/Visittransfer/Models/Reference.php:138-152 | after a successful submission a second one always fails and the first content stays |
| Visittransfer.SubmittedButNotReported | app/Modules/Visittransfer/Models/Reference.php:105-108 | a submitted reference with no `state` attribute is under review, yet `is_submitted` is false |

## Left out

- **Registry fetches.** The `VatsimXML` fetches become the `Network` parameter, which gives
  the answer for each account and record kind.
- **Storage and transactions.** These are reduced to the following:
  - Eloquent saves, reloads and eager loading are not modelled.
  - The database transaction is modelled as a log of begin, rollback and commit calls.
  - A rollback restores the row snapshot taken at begin.
- **Collaborators not in this model.** These are parameters with no stated behaviour:
  - the rating classifiers `parseVatsimATCQualification` and `parseVatsimPilotQualifications`;
  - `determineState`;
  - the division state code;
  - the system account id.
- **Timestamps.**
  - Timestamps are integers in seconds.
  - The calendar offsets (one, three and six months back) are inputs in `Clock`, because Carbon
    month arithmetic is not modelled.
  - `setPeriodAmountFromTS` is not modelled.
- **Logging and exit.** The change log, the table rows, `str_pad`, `print` and the "No members to
  process" message are left out, as are `exit()` process control and the process-level
  `return`. `Fire` returns the exit code instead.
- **The ban's instigator.**
  - `bansAsInstigator($newBan)` at line 172 reads like a relationship accessor whose argument
    is ignored. What that line does is not known here.
  - The model records the system account as the new ban's instigator, because that is
    evidently the intent.
- **Ban accessors.**
  - `is_network_banned` and `network_ban` are Account accessors, and the Account model is not
    part of this model.
  - The model defines an active network ban as a ban of the network type with no finish time.
  - `network_ban` is the first such ban in creation order.
  - `NetworkBanLifecycle` and `AtMostOneActiveNetworkBan` rest on these definitions.
- **Reconcile: other exceptions inside the transaction.**
  - The model assumes that nothing in the `try` block throws except the previous-rating lookup.
  - A storage error or a throwing collaborator would also reach the rollback at line 249.
  - So "rolls back exactly when the lookup fails" holds only under that assumption.
- **Declared options.**
  - The options live in `$name`, not `$signature`.
  - Which options the console declares is decided by the base class `aCommand`, which is not
    part of this model. It is an input of `Fire`.
  - The `max_members` argument is assumed to be declared.
- Fire: one clock for the whole run.
  - `Fire` uses one `clock.now` both for planning and for every member's reconciliation.
  - So every committed member gets that `cert_checked_at`, and every new ban starts at it.
  - The source reads `Carbon::now()` again for each member (lines 149, 168 and 179). That time
    is later than the planning time and grows over the batch.
- Fire: the order of tied rows.
  - `Fire`'s batch is `Plan`'s, which keeps rows with equal `cert_checked_at` in table order.
  - This matters most for accounts never checked, whose NULL keys all tie.
  - MySQL leaves the order of tied rows to the engine, so which of them fall inside the limit
    is not determined by the query. `PlanTakesStalestFirst` states what every such order
    shares.
- TierOf: a missing `--type` value (null) runs the full tier. Indexing null yields null without
  an error in the PHP versions this code was written for. Later PHP versions raise a notice
  there, which the framework would turn into an exception.
- **Uncaught exceptions.** An exception that escapes `fire` ends the run as `Threw`. The exit
  status the console then reports is not modelled.
- ParseId: a key is compared as a strict decimal id. MySQL compares a string with an integer
  column by the string's leading numeric prefix, so `findOrFail("123abc")` would find account
  123. That coercion, and signs, spaces and decimal points, are not modelled.
- **Qualification rule.**
  - `Reconcile` keeps `addQualification` as "add unless it is already the latest of its
    kind", because that rule belongs to the Account model.
  - The intended "add unless held" rule (`AddAllUnlessHeld`) is proved idempotent, but the
    command is not re-specified with it.
- **Qualification order.** Qualifications are kept in creation order, and "latest of kind" is
  the last one appended.
- **Laravel details.**
  - `limit()` ignores a negative value, which `Take` reproduces.
  - Query scopes, relationships and the `tokens` morph relation of `Reference` are not
    modelled.
- **Token generation.** `Token::generate` is not part of this model. `GenerateToken` gives the
  arguments passed to it, and the meaning of its second (false) argument is not known here.
- **The reference controller.** `Http/Controllers/Site/Reference.php` is left out: it only
  authorises, renders views, redirects and calls `submit` and `consume`.
- **Loose comparison.** PHP compares loosely (`"30" == 30`). Statuses are modelled as integers,
  so string-typed column values are not distinguished.
- **`is_inactive` and `status`.** A change of `is_inactive` may alter a derived `status`
  accessor on the Account model, which is not part of this model. `status` is kept as it was.

## Findings

| source | as written | input that shows it | evidently intended | confidence | as-written member | corrected member |
|---|---|---|---|---|---|---|
| app/Console/Commands/MembersCertUpdate.php:203-221 | the ATC grant and the previous rating are both added with `addQualification`, which skips a qualification only when it is already the latest of its kind | an instructor (rating 8) in the division whose grant is I1 and previous rating C1: the first run stores `[I1, C1]`, a second run on the same record stores `[I1, C1, I1, C1]`, and each later run adds two more rows; two pilot ratings of one kind repeat the same way (lines 238-244) | a rerun on an unchanged record adds nothing: a qualification is added only when the account does not hold it | low (the rule of `addQualification` lives in the Account model, which is not part of this model); not executed | Reconciliation.RerunRepeatsQualifications | Members.AddAllUnlessHeldIdempotent |
| app/Modules/Visittransfer/Models/Reference.php:107 | `in_array($this->state, $REFERENCE_IS_SUBMITTED)` reads an attribute `submit` never sets | a requested reference with no `state` attribute, after a successful `submit`: status 50, yet `is_submitted` is false | `in_array($this->status, ...)`, true for statuses 50, 90 and 95 | medium (the table might have a `state` column kept in step elsewhere); not executed | Visittransfer.SubmittedButNotReported | Visittransfer.Reference.IsSubmittedByStatus |
