# Silicon Remind, modelled in Dafny

Silicon Remind stores reminders, fires them on time and shares them between accounts of Silicon Accounts. These
modules model its state machines, codecs and lexers, and prove what holds over every input, every run or every
interleaving. `dafny verify dfyconfig.toml` checks all of it.

## How the program is modelled

- A SQL statement, or a transaction under one lock, is one atomic step on a map of rows. Where the source changes rows
  or fields in place, a class holds them and each method's contract gives the whole new state as a specification
  function of the old one. The theorems are about those functions and about runs of steps.
- Time is a parameter. Clocks never run backwards, but a request may read its clock long before it takes effect.
- Hashes, keys, SQL ordering, the cron library, the time-zone database, the JSON parser and the network are parameters
  with the least contract the code relies on. A property proved for such a parameter holds for every one that meets
  the contract.
- Where a claim in the program's documentation fails for some inputs, the code's behaviour is kept, and the claim is
  proved to hold exactly when a stated condition on the input holds.

## The parts

- `Budget`: the request budget keeps pruned queues per caller; its decisions are those of a rule over the full
  history.
- `Reports`: the leased report queue, with any number of workers that stall, crash or answer late.
- `AccountState`, `Suspension`, `Convergence`: one cached account under tokens, webhook events and lookups in any
  order. Suspension follows the documented rule unless a sign-out reaches the newest token; the iff is
  `OrderIndependentIffUncontested`. A profile update that names no custodian still moves the observation time, so a
  custodian settles exactly when the newest report names one (`CustodianSettlesIffNewestNames`).
- `Anonymity`: the source promises that a deleted account stays anonymised. Lookups and member records keep to that,
  but the updates that stand in for a failed re-read do not ask for the status. A deleted account stays anonymous over
  a run exactly when no event newer than what was seen, whose re-read failed, names it again
  (`AnonymousThroughoutIff`). `LateRenameNamesTheDeleted` is such an event, `WellReadStaysAnonymous` the case without
  failures.
- `Delegation`, `CustodianFence`: a trigger ends what an account's custodian was granted, and what it granted or
  allowed, on every write that replaces it. A request to share is authorized and resolves its other account before it
  inserts its row, and does not check again. So the documentation's promise that the old custodian stops can fail:
  over every run of events, re-reads, tokens, requests and deliveries in any interleaving, each delegation is at all
  times one made by its account or the present custodian, and deleted accounts hold nothing, if and only if every
  insert that adds a row finds its maker still in charge and both accounts undeleted (`RunOrderlyIff`). One request
  suffices to lose this, by its own lookup (`RenamedAndHandedOn`). A request during which nothing happens to the
  accounts it is about is safe (`UndisturbedIsCurrent`). A stray delegation ends when it is withdrawn, when one of its
  accounts is deleted, or when a custodian is replaced who made or received it, and not before (`DelegationEndsIff`,
  `StrayDelegationStays`). A suspended account has nothing pending until it signs in again, unless the worker had
  picked one of its reminders before (`SuspendedStaysSilent`, `PickedFiresAfterSuspension`).
- `TestEnvironments`, `SweepTransparency`: expiry applied lazily and by a background sweep. The sweep is invisible to
  every operation modelled, with one exception. Active names are unique per owner, and per organization for
  environments from before the move to accounts, by indexes that look at stored rows. A restore allowed otherwise is
  therefore refused while its name is held only by idle rows, which may belong to another owner, and accepted once
  they are swept. It answers independently of the sweep exactly when the name is free or some holder is not idle
  (`RestoreTransparentIff`).
- `Tokens`, `ShellGrammar`, `ShellLexer`, `ShellColours`, `ScriptLexer`, `ScriptColours`: the source highlighter loses
  no text and joins tokens as far as possible. The grammar and the script's reading say which piece each character is
  in and what kind that piece has; the lexers' loops give exactly these kinds, which leaves one list of tokens. What
  the kinds say of here-documents, quotes, comments, words and the like is then told from the text alone.
- `InstantOrder`: the order of pages is that of time.
- `Base64`, `Cursor`, `Pagination`, `CursorPages`: page cursors and walks through a list that changes between pages.
- `Schedules`, `ScheduleRuns`: merge patches, pausing, archival and materialization. Occurrences strictly increase
  exactly as long as no request recomputes the next instant from a clock reading that reaches back to a match already
  materialized (`RunAheadIff`). Such a request is possible, because the clock is read before the row
  (`StaleClockRepeatsInstant`). The schedule is then stuck, and with it every worker batch that includes it.
- `Sharing`, `SharingRaces`: viewer grants and allow-lists. With operations taken one at a time, grants stay justified
  over every run exactly when circles are mutual, which they are whenever custodians are Carbons. A grant is in fact
  checked by one statement and inserted by another. Then they stay justified throughout a run exactly when every
  insert still finds its allowance (`RunJustifiedIff`), and over all runs exactly where no grant ever needs one
  (`JustifiedOverAllRacesIff`).
- `UuidRewrite`, `UuidText`, `Ledger`: identity mappings, JSON rewriting and migration ledgers. The ledger is
  chain-free over all runs when it is itself among the checked ledgers; otherwise exactly when the new mapping shares
  no end with the old entries.
- `IdentityLinks`: link files. The source's comment promises that running a file again completes a run whose second
  transaction failed. The unique index on an environment's owner and name breaks that promise for some tables. It is
  kept exactly when no step of the update, in the order of the keys, gives two environments stored as active the same
  owner and name (`RerunCompletesIff`). Only the final names matter unless an environment leaves one listed account
  for another (`FinalNamesDecide`). `SameNameNeverCompletes` and `ExchangeNeverCompletes` are two tables that no rerun
  gets past as long as they stay as they are.
- `RoundRobin`: the worker's rotation through test environments.
- `Jwks`: concurrent callers of the cached key set.
- `Backoff`: retry delays and the attempts of one execution.

## Model

| member | source | states |
|---|---|---|
| Budget.RequestBudget.Admit | src/api/budget.rs:12-37 | the pruned queues accept a caller exactly when the full history admits it, and the history grows by exactly the accepted request |
| Budget.Prune | src/api/budget.rs:25-31 | popping expired instants off the front leaves exactly the instants later than the horizon |
| Budget.RetentionKeepsLive | src/api/budget.rs:17-21 | testing only each queue's newest entry keeps exactly the callers live in the full history, and the summary stays exact |
| Budget.NoWindowOverLimit | src/api/budget.rs:12-37 | over any history of accepted requests no 60-second window, wherever it starts, holds more than 300 of one caller |
| Budget.LiveCallersBounded | src/api/budget.rs:17-24 | at no instant are more than 10,000 callers live |
| Budget.BudgetKeepsLimits | src/api/budget.rs:12-37 | both limits hold of the budget's own history, whatever requests it has answered |
| Budget.RefusedOnlyAtLimits | src/api/budget.rs:12-37 | a request is refused only to a caller with 300 of the last minute or, if it has none, while 10,000 callers do |
| Reports.ReportQueue.ClaimOne | src/infrastructure/reports.rs:43-47 | a claim takes some due row and leaves it leased with the next attempt number; with none due nothing changes |
| Reports.ReportQueue.Complete | src/infrastructure/reports.rs:54-83 | a completion settles the row by its response only while its own lease is on it |
| Reports.RunIsFenced | src/infrastructure/reports.rs:43-83 | the fencing invariant survives every run of new reports, claims and completions however late or repeated |
| Reports.ClaimsAreSpaced | src/infrastructure/reports.rs:43-83 | claims of one report have distinct numbers, start at least 60 s apart in that order, and at least 300 s after a completion that took effect |
| Reports.OnlyLatestClaimCompletes | src/infrastructure/reports.rs:81-82 | a completion that changes the row belongs to the latest claim and is the first to take effect for it |
| Reports.SettledForEver | src/infrastructure/reports.rs:43-83 | sent, failed and simulated rows never change again in any run |
| Reports.SettledAsReported | src/infrastructure/reports.rs:64-82 | over any run a report is sent only by a 2xx response, and failed only by a 4xx other than 429 or at the eighth attempt, to a completion that took effect; and each of these settles it so |
| Reports.NinthClaimMeansEighthNeverCompleted | src/infrastructure/reports.rs:64-82 | a claim numbered past the eighth means no earlier attempt from the eighth on ever took effect |
| Reports.CrashesReclaimForEver | src/infrastructure/reports.rs:43-47 | nothing caps claims: workers that keep crashing reclaim a report any number of times |
| AccountState.AccountStore.ObserveToken | src/infrastructure/identity.rs:267-327 | the fast path and the locked path answer and leave the rows exactly as the one specification of presenting a token |
| AccountState.AccountStore.TryFast | src/infrastructure/identity.rs:274-282 | whenever the read-only path answers, the locked path would give the same answer and leave the row unchanged |
| AccountState.AccountStore.Apply | src/infrastructure/account_events.rs:58-170 | an event naming a retired id leaves no trace; any other takes effect once per event id, as the specified effect on its subject's row and holdings followed by the re-read's; each write that changes the custodian ends the previous one's delegations |
| AccountState.LosingAccessEndsDeliveries | src/infrastructure/account_events.rs:294-326 | whatever takes an active account's access away leaves it nothing undelivered and changes no other field of its reminders and nothing of anyone else's |
| AccountState.DeletionEndsEverything | src/infrastructure/account_events.rs:328-360 | whatever deletes an account leaves it nothing undelivered, its uncompleted reminders archived, no subscription and no delegation, and others' reminders and subscriptions as they were |
| AccountState.NothingElseEnds | src/infrastructure/postgres/repository/lifecycle.rs:75-136 | nothing that leaves the account active, or suspended as it was, touches its reminders or subscriptions |
| AccountState.FirstSightRegisters | src/infrastructure/identity.rs:267-327 | an account first seen by a token or a proof is stored active, under the id it names itself, and counts as signed in since that token |
| AccountState.RereadIsShown | src/infrastructure/identity.rs:354-384 | after an event whose re-read succeeds the row shows kind, id, custodian, name and photo as read, whatever the event said |
| AccountState.LateEventsUndoNothing | docs/migration/decisions.md:173-175 | an event not newer than what is stored changes neither id nor custodian, an update of a known version no profile |
| AccountState.LookupOutranksOlderEvents | src/infrastructure/identity.rs:755-807 | after a lookup no event from before it changes the id or the custodian |
| AccountState.RetiredStayOut | src/infrastructure/account_events.rs:71-94 | an applied event is about no retired account and makes none a custodian |
| AccountState.HappeningKeepsCustodianSilicons | migrations/0010_accounts_identity.sql:56-57 | no event, token or lookup gives a custodian to an account that is no Silicon, so none runs into the table's constraint |
| Delegation.FenceKeepsMade | migrations/0011_custodian_grant_fencing.sql:3-21 | after a change of custodian what is left was made by the account or its new custodian |
| Delegation.OthersAreKept | migrations/0011_custodian_grant_fencing.sql:9-14 | delegations of other accounts, and all of them while the custodian stays or there was none, are kept as they are |
| CustodianFence.StepKeepsOrderlyIff | migrations/0011_custodian_grant_fencing.sql:3-21 | events, re-reads, tokens, checks, revocations, new reminders, deliveries and subscriptions keep delegations made by present custodians and deleted accounts empty; an insert does exactly when its maker is still in charge and neither account deleted |
| CustodianFence.RunOrderlyIff | src/application/sharing.rs:60-236 | throughout a run, whatever comes between a request's checks and its insert or an event and its re-read, this holds if and only if every insert that adds a row is current |
| CustodianFence.UndisturbedIsCurrent | src/application/sharing.rs:198-279 | an insert is current if nothing happens to the owner since the request was authorized, nor to the other account since it was found |
| CustodianFence.OvertakenInsertBreaksOrder | src/infrastructure/sharing.rs:150-175 | whoever the owner and the other account are, deleting the owner or handing it on between a request's checks and its insert leaves a delegation out of order |
| CustodianFence.RenamedAndHandedOn | src/application/sharing.rs:220-236 | a request that names a Silicon by its new id looks it up, stores its new custodian and still inserts the old one's grant, which outlives a further change of custodian |
| CustodianFence.DelegationEndsIff | src/infrastructure/sharing.rs:182-309 | a step ends a delegation if and only if it withdraws it, deletes one of its accounts, or replaces a custodian that made or received it; else the delegation keeps its maker |
| CustodianFence.StrayDelegationStays | migrations/0011_custodian_grant_fencing.sql:5-15 | so a delegation made by neither account nor custodian outlives any number of other custodians |
| CustodianFence.CustodianChangeEndsDelegation | docs/accounts.md:210 | at the write that changes a custodian, the previous one has no grant or allowance of that account left and none it made for it |
| CustodianFence.HandedOn | src/infrastructure/account_events.rs:261-292 | a Silicon handed to a new custodian by an event whose re-read fails: the old one's grant and allowance end, a grant the Silicon made stays |
| CustodianFence.SilentThroughoutIff | src/infrastructure/postgres/repository/lifecycle.rs:123-136 | throughout a run an account without pending deliveries has none exactly as long as none of its reminders fires |
| CustodianFence.SuspendedStaysSilent | src/infrastructure/postgres/repository/delivery.rs:39-61 | an account that loses its access while none of its reminders is picked has none pending, over every run, until it signs in again |
| CustodianFence.PickedFiresAfterSuspension | src/infrastructure/postgres/repository/delivery.rs:46-54 | any reminder picked just before its owner loses access still fires, and its delivery is pending for the suspended account |
| AccountState.AccountStore.ApplyData | src/infrastructure/account_events.rs:175-292 | data events write only under their ordering guards, and not at all when a re-read settles them |
| AccountState.DeletedIsAbsorbing | src/infrastructure/identity.rs:684-705 | after any sequence of happenings a deleted account is still deleted and refuses every token |
| Anonymity.DeletionAnonymises | src/infrastructure/account_events.rs:324-344 | whatever deletes an account leaves no id, name, photo or custodian in its row, and a cutoff no earlier than the deletion |
| Anonymity.StaysAnonymousIff | src/infrastructure/account_events.rs:175-292 | what happens to a deleted anonymous account leaves it so exactly unless an event names it again that is newer than what was seen and that no re-read stands in for |
| Anonymity.AnonymousThroughoutIff | src/infrastructure/identity.rs:809-833 | over any run of tokens, proofs, events, lookups and member records a deleted account stays anonymous throughout if and only if no such event arrives |
| Anonymity.WellReadStaysAnonymous | src/infrastructure/account_events.rs:107-119 | so it stays anonymous as long as every re-read an event asks for succeeds |
| Anonymity.LateRenameNamesTheDeleted | src/infrastructure/account_events.rs:180-193 | whatever account is deleted, one later rename whose re-read fails names it again, and no token, lookup or member record takes the name away |
| Suspension.FinalTracks | src/infrastructure/account_events.rs:297-326 | cutoff and last token of the row are tied to the latest removal, sign-out and token among the events, in any order |
| Suspension.SuspendedIffRemovalPrevails | src/infrastructure/account_events.rs:297-326 | in every order, an uncontested batch leaves the account suspended exactly when its latest removal is not older than its newest token |
| Suspension.OrderIndependentIffUncontested | src/infrastructure/identity.rs:684-698 | arrival order matters exactly when a sign-out at or after the newest token's second meets a removal older than that token |
| Suspension.ContestedCanSuspend | src/infrastructure/account_events.rs:420-434 | every contested batch has an order that ends suspended, all its tokens refused by the sign-out's cutoff |
| Suspension.ContestedCanStayActive | src/infrastructure/account_events.rs:297-326 | every contested batch also has an order that ends active |
| Suspension.ContestedBatch | src/infrastructure/identity.rs:684-698 | such a batch: a removal at 9.5 s, a token of second 10 and a sign-out at 10.2 s end suspended or active by their order |
| Convergence.EventsCommute | src/infrastructure/account_events.rs:198-292 | two data events with distinct times about an account of either kind can be delivered in either order, if a Silicon's updates name its custodian |
| Convergence.RedeliveryChangesNothing | src/infrastructure/account_events.rs:131-170 | delivering any event twice in a row is delivering it once |
| Convergence.HistoriesConverge | src/infrastructure/account_events.rs:131-292 | any two deliveries of the same events about a Carbon, or about a Silicon whose updates name its custodian, end in the same row however reordered and repeated |
| Convergence.NewestWins | src/infrastructure/account_events.rs:198-292 | in every order id and profile end as their newest event says, for accounts of either kind and whatever updates say of custodians; so does a custodian whose newest report names one |
| Convergence.CustodianSettlesIffNewestNames | src/infrastructure/account_events.rs:261-292 | on a new account the custodian is the same in every order exactly when the newest report names one or none does |
| TestEnvironments.FirstIdsAreFirst | src/infrastructure/testing.rs:540-548 | a page is ascending, within the listed set, and leaves out only larger ids, and only when full |
| TestEnvironments.Control.RotateKey | src/infrastructure/testing.rs:356-379 | rotation and restore do the checks in order, meet both unique name indexes, and leave exactly the rotated row, or nothing |
| TestEnvironments.RotatedIsActive | src/infrastructure/testing.rs:356-379 | a rotation or restore that answers with a key leaves the environment active for 15 days from then, shows it so, hands out that key, and leaves all other rows as they were |
| TestEnvironments.RotatedKeyEnters | src/infrastructure/testing.rs:425-471 | for those 15 days a new key enters this environment, and the one before enters none |
| TestEnvironments.RestoreKeepsLimit | src/infrastructure/testing.rs:356-379 | a restore leaves its owner at most five active environments |
| TestEnvironments.Control.DeleteEnvironment | src/infrastructure/testing.rs:384-392 | deletion retires the row no later than it would have lapsed, and refuses the unreadable and the unmanaged |
| TestEnvironments.DeletedIsRetired | src/infrastructure/testing.rs:384-392 | a deleted environment hands out no key and is entered by none, and is shown for 30 days as deleted since then or since it had lapsed |
| TestEnvironments.TouchedIsActive | src/infrastructure/testing.rs:139-150 | activity postpones the lapse to 15 days from then and changes nothing else |
| TestEnvironments.Control.GuardedGet | src/infrastructure/testing.rs:746-763 | who may not see an environment gets not-found, who may not manage it a refusal |
| TestEnvironments.ListShowsTheFirst | src/infrastructure/testing.rs:281-310 | a page lists, in order of ids and up to its limit, the first environments that getting them shows, deleted ones only if asked for, each as getting it shows it |
| TestEnvironments.EntersIffShown | src/infrastructure/testing.rs:335-354 | a key enters an environment exactly when its owner's readers are shown that key for it |
| TestEnvironments.Control.Sweep | src/infrastructure/testing.rs:555-585 | one pass applies the per-row sweep to up to 100 due rows in id order |
| TestEnvironments.DueIffSweepChanges | src/infrastructure/testing.rs:555-585 | the pass picks exactly the managed rows that sweeping them would change |
| SweepTransparency.RowsAgree | src/infrastructure/testing.rs:737-744 | everything read through the lazy deadlines is the same on a swept and an unswept table |
| SweepTransparency.RotateAgrees | src/infrastructure/testing.rs:356-379 | unless it is a restore waiting for a sweep to free its name, a rotation answers alike on both tables and keeps them related |
| SweepTransparency.SweepStaysBehind | src/infrastructure/testing.rs:555-585 | a sweep step on one side keeps the simulation, given that its lock excludes leased environments |
| SweepTransparency.RequestAgrees | src/infrastructure/testing.rs:281-471 | every request is enabled, answered and followed alike on both sides |
| SweepTransparency.SweepsAreInvisible | src/infrastructure/testing.rs:281-585 | taking all sweep steps out of any legal guarded run leaves a legal run with the same answers |
| SweepTransparency.RestoreTransparentIff | src/infrastructure/testing.rs:356-379 | a restore allowed otherwise answers independently of every sweep exactly when its name is free or held by some row that is not idle, under both unique name indexes |
| SweepTransparency.SweptNamesakesAreGone | testing/migrations/0004_imported_environment_names.sql:3-6 | sweeping all idle holders of a name leaves it free |
| SweepTransparency.NameOfOtherOwnerWaitsForSweep | src/error.rs:299-305 | an idle row of another owner, or of none, in the same organization makes a restore refused until it is swept |
| SweepTransparency.FullSweepWritesLogicalView | src/infrastructure/testing.rs:737-744 | sweeping every due row leaves exactly the unexpired rows, each storing what the lazy view showed |
| SweepTransparency.ShownKeyEnters | src/infrastructure/testing.rs:425-471 | the shown key enters its own environment and no other, and no longer does so once it is rotated |
| Tokens.Out.Push | frontend/lib/highlight.ts:41-50 | pushing appends the text, joins equal neighbours and keeps the list normal |
| Tokens.PushAppendsText | frontend/lib/highlight.ts:41-50 | pushing appends exactly the value to the text and keeps a normal list normal |
| Tokens.PushAppendsKinds | frontend/lib/highlight.ts:41-50 | pushing changes the kind of no earlier character, joined or not |
| Tokens.NormalIsUnique | frontend/lib/highlight.ts:41-50 | a text with its per-character kinds has only one normal token list |
| Tokens.CharsOfIsInjective | frontend/lib/highlight.ts:70-73 | sequences of UTF-16 units, unpaired surrogates included, are told apart by the characters that stand for them |
| Tokens.SurrogatesAreOrdinary | frontend/lib/highlight.ts:60-68 | a surrogate falls into none of the lexers' character classes |
| ShellLexer.HighlightShell | frontend/lib/highlight.ts:70-248 | for every input the token texts concatenate to the source, tokens are normal, every character has the kind of the piece the lexer finds it in, and comments, numbers, keywords, flags and commands have the form their colour says |
| ShellLexer.Body | frontend/lib/highlight.ts:82-104 | a here-document body is coloured up to the line that is its delimiter, or to the end of the text |
| ShellLexer.FlagName | frontend/lib/highlight.ts:232-240 | the name of a flag ends at the first equals sign, and is itself a whole flag |
| ShellLexer.WordEnd | frontend/lib/highlight.ts:209-214 | the loop ends a word at the first stop character or continued line, which a backslash may overshoot |
| ShellColours.OneHighlighting | frontend/lib/highlight.ts:70-248 | the lexer's contract is met by exactly one list of tokens |
| ShellColours.DelimiterLineIsFirst | frontend/lib/highlight.ts:85-105 | the delimiter found is the first line equal to the announced word, leading white space aside with a dash, and none is missed |
| ShellColours.BodyIsColoured | frontend/lib/highlight.ts:86-105 | a body is a string up to its delimiter line, which is a keyword, or to the end of the text |
| ShellColours.NextBodyFollows | frontend/lib/highlight.ts:92-97 | the next body starts behind the delimiter's line |
| ShellColours.BodiesAreColoured | frontend/lib/highlight.ts:82-106 | the bodies of all here-documents announced on a line follow each other and are each coloured so |
| ShellColours.HereDocumentIsString | frontend/lib/highlight.ts:79-109 | wherever the lexer meets a line end with a here-document announced, what follows is coloured as its body |
| ShellColours.CatHereDocument | frontend/lib/highlight.ts:188-196 | for every word and every text behind it, `cat <<WORD` colours its mark as punctuation and the lines up to WORD as a string |
| ShellColours.QuoteIsString | frontend/lib/highlight.ts:129-136 | single quotes are a string up to the next quote |
| ShellColours.EscapedIsString | frontend/lib/highlight.ts:137-143 | a quote behind a dollar sign starts a string up to the first quote that no backslash escapes |
| ShellColours.DoubleQuotesAreString | frontend/lib/highlight.ts:144-171 | so do double quotes without a dollar sign, and no command can start behind them |
| ShellColours.CommentIsComment | frontend/lib/highlight.ts:123-128 | a comment is one to the end of its line |
| ShellColours.CommandIsColoured | frontend/lib/highlight.ts:230-231 | where a command can start, a word is a keyword exactly if listed and else a command, and resets the start exactly if listed |
| ShellColours.AssignmentIsColoured | frontend/lib/highlight.ts:222-229 | an assignment is a variable and a sign, and the command is still to come |
| ShellColours.FlagIsColoured | frontend/lib/highlight.ts:232-240 | behind a command a dash and a name are a flag |
| ShellColours.NumbersAreDecimal | frontend/lib/highlight.ts:241-242 | digits with or without a minus and a fraction are a number |
| ShellColours.VariableIsColoured | frontend/lib/highlight.ts:66-67 | a dollar sign and a name are a variable, and no command can start behind them |
| ShellColours.BraceBeginsWord | frontend/lib/highlight.ts:198-199 | a brace inside a command that does not stand alone belongs to its word |
| ShellColours.QuotesEndCommands | frontend/lib/highlight.ts:169-178 | no command can start behind quotes, and one can inside a substitution |
| ScriptLexer.HighlightScript | frontend/lib/highlight.ts:327-396 | for every input, templates nested to any depth included, the token texts concatenate to the source, tokens are normal and every character has the kind of the piece it is read in |
| ScriptLexer.Lex | frontend/lib/highlight.ts:327-396 | the code inside a template is read to its closing brace or the end of the text, and coloured as read |
| ScriptLexer.Match | frontend/lib/highlight.ts:341-393 | the patterns are tried in the source's order, and one matches at least one character wherever the lexer stands |
| ScriptColours.OneHighlighting | frontend/lib/highlight.ts:327-396 | the lexer's contract is met by exactly one list of tokens |
| ScriptColours.LineCommentsAreWhole | frontend/lib/highlight.ts:343-344 | a line comment goes to the end of its line |
| ScriptColours.BlockCommentsAreWhole | frontend/lib/highlight.ts:343-344 | a block comment goes to its first closing mark or the end |
| ScriptColours.StringsStayOnLine | frontend/lib/highlight.ts:371-372 | a quotation mark starts a string that stays on its line |
| ScriptColours.StringsEndAtQuote | frontend/lib/highlight.ts:371-372 | it ends behind the first such mark that no backslash escapes |
| ScriptColours.TemplatesEndAtQuote | frontend/lib/highlight.ts:345-370 | so does a template without expressions, all of it a string |
| ScriptColours.RegexIsString | frontend/lib/highlight.ts:373-374 | where no value can end before it, a slash starts a regular expression, up to the next slash and its flags |
| ScriptColours.DigitsStartNumbers | frontend/lib/highlight.ts:375-376 | a digit starts a number |
| ScriptColours.WordsAreWhole | frontend/lib/highlight.ts:377 | a word is taken as far as it goes |
| ScriptColours.WordsByPlace | frontend/lib/highlight.ts:378-385 | a word is a function or property behind a point, and else a keyword or type if listed, before what follows it counts |
| ScriptColours.WhatIsLeft | frontend/lib/highlight.ts:386-390 | punctuation is punctuation, white space is taken whole, and anything else stays plain |
| Base64.DecodeEncode | src/domain/cursor.rs:104-106 | decoding an encoding gives the bytes back |
| Base64.EncodeDecode | src/domain/cursor.rs:104-106 | every accepted text is the encoding of what it decodes to |
| Cursor.DecodeEncode | src/domain/cursor.rs:74-134 | a cursor decodes for its own query and is refused by name for the other, with every faithful JSON reader |
| Cursor.AcceptsExactlyEncodings | src/domain/cursor.rs:96-134 | the strings decoding accepts for a query are exactly the encodings of its cursors, each with its one cursor |
| Cursor.EncodeIsInjective | src/domain/cursor.rs:74-82 | distinct cursors, of one kind or of two, have distinct encodings |
| Cursor.EncodedFits | src/domain/cursor.rs:9-10 | an encoded cursor never exceeds the decoder's input bound |
| Cursor.SizeIsCheckedFirst | src/domain/cursor.rs:96-106 | nothing and anything over 1024 bytes is refused as such before it is read |
| Cursor.ReadIsFaithful | src/domain/cursor.rs:137-146 | a strict reader of the envelope gives back every envelope the serializer writes, so faithful readers exist |
| Pagination.QueryShowsPage | src/infrastructure/postgres/repository/schedules.rs:149-162 | a page is the newest rows after the cursor in order, and says truthfully whether more follow |
| Pagination.WalkCovers | src/application/schedules.rs:518-551 | a walk is strictly descending throughout and has skipped no row that stayed |
| Pagination.WalkShowsEachRowOnce | src/application/schedules.rs:518-551 | a walk over tables that change between pages ends within a bounded number of pages and shows each staying row exactly once |
| CursorPages.OlderIsTotalOrder | src/domain/cursor.rs:16-19 | the order by instant and then id is total |
| InstantOrder.OlderBySecond | src/domain/cursor.rs:16-19 | a row is older than another exactly when its second, counted from a fixed day through all months and leap years, is earlier, or within it its nanosecond, or at the same instant its id is less |
| InstantOrder.OlderIsEarlier | src/domain/cursor.rs:16-19 | outside of leap seconds that is a smaller number of nanoseconds, and then a smaller id |
| CursorPages.PagesAreBounded | src/application/schedules.rs:663-671 | a page has at most 100 rows, 20 unless a limit is given, and exactly as many if a next cursor comes with it |
| CursorPages.CursorLeadsOn | src/application/schedules.rs:159-179 | the request made with a row's encoded cursor is never refused and continues after that row |
| CursorPages.FollowingCursorsShowsEachRowOnce | src/application/schedules.rs:518-551 | following encoded cursors to the end shows each staying row exactly once, newest first |
| Schedules.Schedule.ApplyPatch | src/domain/schedule.rs:529-551 | on any aggregate, a patch is refused as stale unless made for its version, and otherwise applied whole |
| Schedules.Schedule.Archive | src/domain/schedule.rs:590-600 | archiving stops the schedule once and is idempotent |
| Schedules.Schedule.ArchiveTriggeredOneTime | src/domain/schedule.rs:561-582 | only a live one-time schedule completes, once |
| ScheduleRuns.CreatedIsConsistent | src/domain/schedule.rs:304-324 | a created schedule satisfies the invariant |
| ScheduleRuns.StepKeepsConsistent | src/infrastructure/postgres/repository/delivery.rs:74-163 | the next instant is set exactly while active and unarchived and always matches the cron; no instant is materialized twice; a one-time execution is the only one of its kind, the last, and completes the schedule |
| ScheduleRuns.RunKeepsConsistent | src/worker/scheduler.rs:37-61 | the same over every run of patches, status changes, archivals and materializations |
| ScheduleRuns.RunMovesForward | src/infrastructure/postgres/repository/schedules.rs:424-455 | equal versions along a run mean equal rows, and executions are only appended |
| ScheduleRuns.EndedIsFinal | src/domain/schedule.rs:372-433 | an archived or completed schedule never changes again |
| ScheduleRuns.DeadlineIsFixed | src/domain/schedule.rs:602-609 | exactly archived and completed schedules have a purge deadline, and no run moves it |
| ScheduleRuns.MaterializationPinsSnapshot | src/infrastructure/postgres/repository/delivery.rs:74-163 | a materialization yields one execution at the stored instant with the version, kind, text and zone then in force, and a next instant after the worker's clock |
| ScheduleRuns.PatchIsApplied | src/domain/schedule.rs:372-433 | what an accepted patch names is stored as named, in canonical form, and what it leaves out stays |
| ScheduleRuns.PatchSetsNext | src/domain/schedule.rs:410-423 | the next instant is none when paused, newly looked for when timing, zone or a pause changed, and else as it was |
| ScheduleRuns.PatchAcceptedIff | src/domain/schedule.rs:372-433 | a patch is accepted exactly when what it asks for parses, fits, does not complete the schedule and fires if it is to fire, on a live schedule with a version to spare |
| ScheduleRuns.PatchRefusals | src/domain/schedule.rs:372-433 | an empty patch, and any patch of an archived schedule, is refused as such before all else |
| ScheduleRuns.StatusIsSet | src/infrastructure/postgres/repository/schedules.rs:769-850 | pausing takes the next instant away, resuming looks for one from then on, and nothing else changes; the same status again changes nothing |
| ScheduleRuns.StatusAcceptedIff | src/infrastructure/postgres/repository/schedules.rs:769-850 | a status is accepted exactly on a live schedule, if it is not completion, there is a version to spare and a resumed one has an instant to come |
| ScheduleRuns.ArchiveIsApplied | src/infrastructure/postgres/repository/schedules.rs:531-600 | archiving stops the schedule and keeps all it was; an ended one stays as it is |
| ScheduleRuns.EndedIsPurgedLater | src/domain/schedule.rs:602-609 | what ends by archiving or by its one run is due for purging 45 days after that step, and nothing else ends a schedule |
| ScheduleRuns.StepKeepsAheadIff | src/domain/schedule.rs:410-423 | a step keeps instants in order exactly when the cron it recomputes with has no match between its clock reading and the last materialized instant |
| ScheduleRuns.RunAheadIff | src/worker/scheduler.rs:37-61 | materialized instants stay strictly increasing and behind the next one throughout a run exactly when no step violates that |
| ScheduleRuns.CurrentClockSuffices | src/application/schedules.rs:223-247 | a clock read no earlier than the last materialized instant is always current enough |
| ScheduleRuns.StaleClockRepeatsInstant | src/application/schedules.rs:223-247 | a patch whose clock was read before a materialization makes the schedule due again at a materialized instant, for good |
| ScheduleRuns.RepeatedInstantIsStuck | src/infrastructure/postgres/repository/delivery.rs:105-125 | a schedule due at an instant already materialized fails at every later worker clock |
| ScheduleRuns.Worker.MaterializeDue | src/worker/scheduler.rs:19-61 | a batch commits whole, counting one execution per schedule, or not at all |
| ScheduleRuns.BatchTouchesOnce | src/worker/scheduler.rs:37-61 | a committed batch adds exactly one execution to each of its schedules and touches no other |
| ScheduleRuns.StuckScheduleBlocksBatch | src/worker/scheduler.rs:37-61 | one stuck schedule fails every batch that includes it |
| Sharing.Store.GrantView | src/application/sharing.rs:60-96 | a grant is made or refused as specified, an existing grant keeping its granter |
| Sharing.ManagedIff | src/application/sharing.rs:199-240 | who may share for whom: a Silicon for itself, a Carbon for an active account in its care |
| Sharing.GrantAcceptedIff | src/application/sharing.rs:60-96 | a grant is accepted exactly for another usable account that is a Carbon, in the owner's circle, or open to the owner or the maker |
| Sharing.GrantAddsOne | src/infrastructure/sharing.rs:150-175 | an accepted grant is active afterwards, with its first maker; all other grants and the allowances are as they were |
| Sharing.Store.RevokeView | src/application/sharing.rs:103-121 | revoking ends exactly one active grant |
| Sharing.RevokeEndsOne | src/infrastructure/sharing.rs:182-199 | after an accepted revocation the grant is gone, every other keeps its maker and the allowances are as they were |
| Sharing.RefusedChangesNothing | src/application/sharing.rs:60-195 | a refused grant, revocation or allowance changes nothing |
| Sharing.Store.AllowAccount | src/application/sharing.rs:145-160 | allowing adds exactly one entry |
| Sharing.AllowAcceptedIff | src/application/sharing.rs:145-160 | an account is allowed exactly if it is usable and neither the Silicon nor whoever allows it |
| Sharing.AllowAddsOne | src/infrastructure/sharing.rs:242-272 | afterwards it is allowed, and all other allowances and the grants are as they were |
| Sharing.Store.DisallowAccount | src/infrastructure/sharing.rs:277-309 | disallowing removes the entry and ends exactly the grants it made possible |
| Sharing.DisallowEndsBacked | src/infrastructure/sharing.rs:277-309 | exactly the grants to the Silicon from outside its circle that the account owns or made end with its allowance |
| Sharing.ActiveIffMadeAndNotEnded | src/application/sharing.rs:60-195 | after any run a grant is active, and whose it is, if and only if some accepted operation made it so and no later one revoked it or took away what it rested on |
| Sharing.OthersAreAlone | src/infrastructure/identity.rs:665-680 | an account of no Carbon kind without a custodian is alone in its circle |
| Sharing.CirclesAreShared | src/infrastructure/identity.rs:665-680 | a Carbon's circle is itself and those in its care, and each Silicon among them has that same circle |
| Sharing.RunKeepsJustified | src/application/sharing.rs:60-195 | with mutual circles every active grant to a Silicon outside the owner's circle is backed by an allowance for owner or granter, over every run |
| Sharing.OneSidedCircleLeavesGrant | src/infrastructure/sharing.rs:294-305 | a Silicon whose circle holds an owner that does not hold it back can be left with an unbacked grant |
| Sharing.KeptSiliconKeepsUnbackedGrant | src/infrastructure/identity.rs:665-680 | so it is for a Silicon in the care of another Silicon, after allow, grant and disallow |
| Sharing.JustifiedOverAllRunsIff | src/infrastructure/identity.rs:665-680 | grants are justified over all runs if and only if circles are mutual |
| Sharing.CarbonCustodiansMakeCirclesMutual | src/infrastructure/identity.rs:665-680 | circles are mutual wherever custodians are Carbons and only Silicons have one |
| SharingRaces.StepKeepsJustifiedIff | src/infrastructure/sharing.rs:150-175 | with mutual circles a checked grant keeps all grants justified exactly when its insert still finds the allowance it needs, and no other step harms them |
| SharingRaces.RunJustifiedIff | src/application/sharing.rs:60-96 | the same throughout every run of checks, inserts, revocations, allowances and their removals, in any interleaving |
| SharingRaces.OvertakenGrantIsUnbacked | src/application/sharing.rs:74-96 | for any owner and any Silicon outside its circle, removing the allowance between check and insert leaves an unbacked grant |
| SharingRaces.JustifiedOverAllRacesIff | src/application/sharing.rs:74-96 | grants stay justified over all such runs if and only if every Silicon is in the circle of every owner that could share with it |
| UuidRewrite.ReadMapping | scripts/accounts_uuid128.py:21-47 | a mapping file is accepted exactly when every row is well formed, no source or target repeats and no target is a source, and yields just that mapping |
| UuidRewrite.AcceptedIsChainFree | scripts/accounts_uuid128.py:43-46 | accepted mappings are injective and chain-free |
| UuidRewrite.RewriteKeepsShape | scripts/accounts_uuid128.py:54-69 | rewriting keeps arrays, keys and every leaf but the text of strings |
| UuidRewrite.RewriteComposes | scripts/accounts_uuid128.py:54-69 | rewriting twice is rewriting once by the composed substitution, on every JSON value |
| UuidRewrite.UnchangedIff | scripts/accounts_uuid128.py:54-69 | a value is left as it is exactly when every identity it mentions is |
| UuidRewrite.RewriteIsIdempotent | scripts/accounts_uuid128.py:54-69 | rewriting again with a chain-free mapping changes nothing |
| UuidRewrite.RewriteBackRestoresIff | scripts/accounts_uuid128.py:54-69 | rewriting back restores a value exactly when it held no target at an identity position |
| UuidRewrite.NoSourceRemains | scripts/accounts_uuid128.py:54-69 | no source identity survives at an identity position |
| UuidText.RowIsAcceptedIff | scripts/accounts_uuid128.py:28-40 | a row is accepted exactly when it has three fields: one word without list, path or membership signs, another id that is a lower-case version-4 UUID, and a kind |
| UuidText.TargetsAreInGroups | scripts/accounts_uuid128.py:33-38 | the targets are exactly the texts in five groups of hexadecimal digits with that version and variant |
| UuidText.TextsFollow | scripts/accounts_uuid128.py:54-69 | of an object's texts those under identity keys are substituted, its id exactly if type, or without one kind, names an account, and no other |
| UuidText.MembershipsFollow | scripts/accounts_uuid128.py:64-66 | of a membership what is behind the first colon is substituted |
| Ledger.AcceptedIsGood | scripts/accounts_uuid128.py:21-47 | what an accepted file lists is a mapping the migration may apply, its entries in file order |
| Ledger.Store.Migrate | scripts/accounts_uuid128.py:132-244 | a run is refused by the first failing check, entries taken in the order of the file; an applied, unrefused run records the mapping and rewrites accounts, identity columns and structured values by it; any other leaves no trace |
| Ledger.RefusedNoneIff | scripts/accounts_uuid128.py:146-175 | a run goes through exactly when ledgers and accounts agree with the mapping, whatever the order of its entries |
| Ledger.CheckedAccountsStayApart | scripts/accounts_uuid128.py:159-178 | accounts that pass the checks are never merged by the renaming |
| Ledger.RenamedAccounts | scripts/accounts_uuid128.py:159-178 | renaming keeps the number and the kinds of accounts and leaves no source identity |
| Ledger.NoSourceInColumns | scripts/accounts_uuid128.py:222-231 | after a run no identity column and no structured value holds a source identity, so the script's closing check never fails |
| Ledger.CellsFollowMapping | scripts/accounts_uuid128.py:189-199 | after a run an identity column that held a source holds exactly its target, and every other cell is as it was |
| Ledger.CellsStayApart | scripts/accounts_uuid128.py:189-199 | where no target was stored before, two identity cells hold the same identity afterwards exactly if they did before |
| Ledger.AccountsFollowMapping | scripts/accounts_uuid128.py:159-199 | each account is found under its target, or where it was, with its kind, and there are no more than before |
| Ledger.LedgersHoldMapping | scripts/accounts_uuid128.py:239-244 | the ledger and the checked ones hold every entry of the mapping and all they held |
| Ledger.ValuesFollowMapping | scripts/accounts_uuid128.py:200-211 | structured values keep their shape and change exactly if they mention a source |
| Ledger.RunsOnlyGrowLedger | scripts/accounts_uuid128.py:145-151 | over any runs the ledger only grows, overwrites nothing and stays injective |
| Ledger.TrackedRunsStayUnchained | scripts/accounts_uuid128.py:152-158 | a ledger among the checked ones also stays chain-free over any runs |
| Ledger.UntrackedStaysUnchainedIff | scripts/migrate_account_uuids.py:38-41 | an unchecked ledger stays chain-free exactly when the new mapping shares no end with the old entries |
| Ledger.UntrackedChainIsAccepted | scripts/migrate_account_uuids.py:38-41 | such a chain is accepted there |
| Ledger.RerunIsNoOp | scripts/accounts_uuid128.py:132-244 | applying an accepted file again is accepted and changes nothing |
| IdentityLinks.Directory.ValidateMappings | src/infrastructure/identity_links.rs:210-254 | no fault is reported exactly when principals resolve and are distinct, accounts are distinct and current, and none is linked elsewhere |
| IdentityLinks.Directory.LinkIdentities | src/infrastructure/identity_links.rs:153-206 | a run commits exactly when the file is valid, every line applies, none ends the run and it is no dry run; otherwise production stays as it is; the report lists what was linked, kept and unlinked; the run fails exactly when a lookup stays unanswered, an account's row breaks the constraint on custodians, or the testing database is down or refuses a name |
| IdentityLinks.Directory.LinkTestEnvironments | src/infrastructure/identity_links.rs:579-604 | in the order of the keys each managed environment of a linked creator gets its account, and each changed one is counted once; this fails, leaving all as they are, exactly when a step makes two environments stored as active share owner and name |
| IdentityLinks.RerunCompletesIff | src/infrastructure/identity_links.rs:190-205 | when the testing database fails after production committed, running the same file again changes nothing in production and completes the run exactly when no step of the update clashes in the environments as they are by then; else it fails again |
| IdentityLinks.CarriedOverStays | src/infrastructure/identity_links.rs:190-193 | once carried over environments stay, and carrying them over again changes and counts none |
| IdentityLinks.FinalNamesDecide | testing/migrations/0007_accounts_owner.sql:15-18 | unless an environment leaves one listed account for another, no step clashes exactly when the final owners and names do not |
| IdentityLinks.SameNameNeverCompletes | testing/migrations/0007_accounts_owner.sql:15-18 | environments of one creator with one name in two organizations cannot be carried over |
| IdentityLinks.ExchangeNeverCompletes | src/infrastructure/identity_links.rs:579-604 | nor can two that change owners with each other, although their final owners do not clash |
| IdentityLinks.ApplyEntry | src/infrastructure/identity_links.rs:264-352 | one line that does not end the run links, keeps, unlinks or is refused, and is reported as such |
| IdentityLinks.MistakenCarbonStopsRun | migrations/0010_accounts_identity.sql:56-57 | an account stored as a Carbon that turns out to be a Silicon with a custodian ends the run, and nothing commits |
| IdentityLinks.FinalLinks | src/infrastructure/identity_links.rs:264-430 | after a committed run each listed principal is linked as its line says and no other link has changed |
| IdentityLinks.FinalRowsTell | src/infrastructure/identity_links.rs:494-531 | after a committed run each listed account shows the id that was found, the kind stored or found, and the custodian found |
| IdentityLinks.CommittedKindsAgree | src/infrastructure/identity_links.rs:264-352 | a committed run links only accounts that were found, of the kind the organization has the principal down for |
| IdentityLinks.OthersStepAside | testing/migrations/0007_accounts_owner.sql:15-18 | an environment that is deleted, not managed or nobody's stands in the way of no name |
| IdentityLinks.RunsKeepLinks | src/infrastructure/identity_links.rs:153-430 | over any runs the links stay a partial injection, the two tables agree, no Carbon has a custodian, and delegations stay those of accounts and their present custodians |
| IdentityLinks.RerunIsNoOp | src/infrastructure/identity_links.rs:153-206 | running a committed file again commits, links and unlinks nothing, and leaves tables, accounts and delegations as they are |
| RoundRobin.Rotation.RunTestCycles | src/worker/mod.rs:324-369 | a cycle visits the first eight listed ids up to the first failure, with the cursor at the last one tried |
| RoundRobin.CycleComesNearer | src/worker/mod.rs:324-369 | every cycle reaches a given active environment or reduces its distance |
| RoundRobin.ReachedWithinUniverse | src/worker/mod.rs:324-369 | an environment that stays active is reached within n + 1 cycles from any cursor, whatever fails and whichever of n environments come and go |
| RoundRobin.WorkerRotation | src/worker/mod.rs:324-369 | from an empty cursor, ceil(n / 8) + 1 undisturbed cycles reach each environment exactly once and start over |
| Jwks.StepKeepsInv | src/infrastructure/accounts.rs:389-428 | the cache, lock and last-forced invariant survives every step of every caller |
| Jwks.ReachableHolds | src/infrastructure/accounts.rs:389-428 | the invariant holds wherever a run from a cold start can be |
| Jwks.ForcedStartsAreSpaced | src/infrastructure/accounts.rs:389-428 | forced fetches start at least 30 s apart over every interleaving, failure and cancellation |
| Jwks.KeysAreNeverLost | src/infrastructure/accounts.rs:407-427 | a key set once obtained stays available and is only replaced by a later fetch |
| Jwks.AnswersAreCurrent | src/infrastructure/accounts.rs:389-428 | unforced calls return keys less than an hour old, or the last good ones after their own fetch failed; only a caller with no keys at all is refused |
| Jwks.FetchesNeverOverlap | src/infrastructure/accounts.rs:396-397 | at most one fetch is under way |
| Jwks.UnforcedFetchesOnlyWhenStale | src/infrastructure/accounts.rs:389-404 | an unforced fetch runs only while no key set under an hour old is cached |
| Jwks.ForcedCallFetchesIff | src/infrastructure/accounts.rs:397-404 | a forced call is answered from the cache exactly when a forced fetch started in the last 30 s |
| Jwks.LookWaitsIff | src/infrastructure/accounts.rs:389-396 | an unforced call waits for the lock exactly when no key set under an hour old is cached, and else has its answer |
| Jwks.LastForcedIsLastStart | src/infrastructure/accounts.rs:397-412 | over any run the waiting time runs from the last forced fetch, which no unforced one moves |
| Backoff.NeverSaturates | src/worker/delivery.rs:345-366 | no 128-bit product or sum comes near saturation |
| Backoff.DelayBounds | src/worker/delivery.rs:345-366 | the delay lies between the capped exponential and the maximum, as far as 64 bits of milliseconds go |
| Backoff.DelaysAreTheRange | src/worker/delivery.rs:345-366 | by its random number a delay takes every value from the capped exponential to the jitter's share above it, and no other |
| Backoff.WindowIsShare | src/worker/delivery.rs:345-366 | that share is the configured percentage of the capped exponential |
| Backoff.DelayGrowsTo32 | src/worker/delivery.rs:345-366 | from attempt 1 to 32 the delay never decreases, whatever the jitter |
| Backoff.GrowsEverywhereIff | src/worker/delivery.rs:345-366 | it never decreases at any attempt exactly when the maximum is at most 2^31 base delays, there is no jitter, or both reach what 64 bits can hold |
| Backoff.Execution.MarkRetrying | src/domain/execution.rs:100-109 | a retry is recorded unless the execution is terminal, which stays as it is |
| Backoff.Execution.MarkDelivered | src/domain/execution.rs:117-128 | acceptance is recorded once, clearing the failure |
| Backoff.Execution.MarkFailed | src/domain/execution.rs:136-145 | terminal failure is recorded once |
| Backoff.RetriesAreBounded | src/worker/delivery.rs:310-340 | at most max_attempts - 1 retries are scheduled, their delays adding up to at most that many maximum delays, even with lost attempts |
| Backoff.RetryableFailsAfterMaxAttempts | src/worker/delivery.rs:310-340 | an always-retryable execution fails after exactly max_attempts attempts |
| Backoff.SettledAsEnded | src/worker/delivery.rs:310-340 | an execution is delivered exactly if an attempt is accepted before any gave up, and failed exactly if one gives up before any is accepted |
| Backoff.DelaysAddUp | src/worker/delivery.rs:310-340 | it has been put off by exactly the delay of each retryable attempt but the last allowed |
| Backoff.TerminalIsFinal | src/domain/execution.rs:32-54 | a delivered or failed execution takes no further attempt |
| Backoff.StatusMovesAlong | src/domain/execution.rs:32-48 | over a run each status follows from the one before by a transition the aggregate allows |
| Backoff.RunAttempt | src/worker/delivery.rs:310-340 | marking the aggregate after an attempt leaves it in the status of the stored row |

## Left out

- Creating test environments and their capacity check count stored rows, swept or not; only the operations listed
  above are shown to be independent of the sweep. Linking an environment to an account is not among them.
- The number of environments an account deletion reports as retired counts stored rows too.
- The `version` counter of a test environment does move with the sweep and is not part of the compared answers.
- The cached connection pools of test environments, their schemas and their sealed credentials.
- AccountState.AccountStore.Apply: public ids are taken already normalised, holdings are kept by account rather than
  by storage key, and retiring a deleted account's test environments, which happens outside the transaction, is
  modelled in TestEnvironments only. The check for retired ids, the receipt's transaction, the re-read and the
  membership are separate database steps; the method takes them with nothing in between. In CustodianFence and in
  `AccountState.Happening` the event, the re-read and the membership are steps of their own, among which anything else
  may come.
- Reports: payloads, and deliveries to several receivers in sequence under one lease.
- Other lexers of the highlighter. The HTTP one repeats line breaks of bodies of several lines, so it is not lossless.
- Cursor.DecodeEncode: the JSON parser and the clock type are library code; any reader that gives back what the
  serializer writes is covered.
- Schedules: the cron language and time zones are a parameter whose `next` is the least later match; idempotency
  records, audit rows, owner filters and permanent purging are not part of this model. The row's bookkeeping time is
  kept only in the in-memory aggregate. Of the store's own checks, only the sizes of texts, zones and cron expressions
  are modelled; it also refuses a row whose update time lies before its creation.
- A bulk status change is modelled one schedule at a time; its all-or-nothing rollback is not.
- Sharing.RunKeepsJustified: accounts and custodians are fixed, and so they are in SharingRaces. The check and the
  insert of a grant are one step; SharingRaces takes them apart. Whether a grant that survives changes of custodians
  is still backed by an allowance is not claimed.
- CustodianFence.RunOrderlyIff: whether a Silicon is open to a grant is not checked there, and a request's own lookups
  are happenings of their own. Of reminders only creation, firing and the end of deliveries are steps.
- Deleting an account ends the grants and allowances it is part of, but not those it made for others.
- Names are already resolved to account uuids in Sharing, and principals to storage keys by a parameter in
  IdentityLinks.
- Ledger.Store.Migrate: foreign keys, unique constraints of other tables, triggers (disabled during a run) and locks.
  Resealing held proofs concerns other applications; for this one the script reseals none.
- UuidRewrite.ReadMapping: CSV quoting and the file's digest; the model starts from the rows' fields.
- IdentityLinks.Directory.LinkIdentities: parsing of the file, validity of ids, counts of live data and the list of
  unmatched principals. Connections lost in the middle of the first transaction are not told apart from its other
  failures.
- The per-caller and global lookup budgets and the introspection, proof and failure caches: the same sliding window
  and bounded map as the request budget.
- Jwks: token verification itself, and the read-write lock around the cache, whose sections are single steps.
- Backoff: the conversion of a delay to a timestamp, whose overflow is one of the ways an attempt is lost.
