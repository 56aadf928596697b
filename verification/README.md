# Transfer ledger and Spec Kit installer: a verified model

This project models two programs that live in one repository and proves what they are for.

**The fund-transfer service** keeps accounts, a transfers table, an audit log and notifications in one database.
Cross-currency transfers convert at a rate the sender has previewed, charge fees on both sides, respect USD limits
and are idempotent by key; plain transfers convert at a configured rate. Both lock the source row and then the
destination row inside one transaction.

- `Money` is the fixed-point arithmetic: amounts are whole numbers of 0.0001 units, rates of 1e-12 units, and a stored
  rate keeps 8 decimals. Cross-currency amounts round half up, plain ones half to even.
- `Ledger` has every service operation as one step from ledger to ledger. `LedgerInvariants` proves what all runs of
  such steps keep; `LedgerRules` says when each goes through, what moves and that closing is final; `LedgerQuotes`
  relates quotes, executions, the sign of the amount and totals per currency.
- `LedgerConcurrency` is the event machine: lookup outside the transaction, lock source, lock destination, count the
  volume, commit from the copies that were read, deadlock, crash. Every interleaving is shown to be a serial run.
  `LedgerReplay` adds idempotency over runs and interleavings, `LedgerProgress` what requests get done.
- `TransferSession` and `TransferServices` are the repositories and services as they run, with row objects whose fields
  are assigned in place and two names that may denote one row; each method is tied to its step in `Ledger`.
  `TransferStatus` follows a status through any sequence of updates.

**The Spec Kit command line tool** installs presets, extensions and shared files into a project.

- `Text`, `Frontmatter` and `PresetComposition` are the composition of a template from its stack of layers: the
  recursive meaning of a stack, the bottom-up resolver that computes it, and the metadata block of composed commands.
- `PresetStack`, `PresetManager` and `PresetInstaller` are the presets: the order of the stack, installation and removal
  with registration and reconciliation, and the agent's command files as a cache of the resolved contents.
- `Hooks` and `HookExecutor` are the hook configuration and the list of installed extensions.
- `ExtensionNames` keeps command names of different extensions apart; `ExtensionUpdate` is the update with backup and
  rollback, in which any file operation may be the one that fails.
- `SharedInfra` and `SharedInfraInstaller` install shared files next to files users own, guided by a manifest of hashes.
- `DeepMerge` has the two recursive merges, `TomlString` the TOML string printer with a reader for its output.

Pure computations are functions; code that changes things step by step is a method or a class whose methods are proved
against such functions, and the properties are lemmas about the functions.

## Assumptions

- Request amounts have at most 4 decimals and feed rates at most 12; decimals are exact, there is no 28-digit context.
- The services do not check that a cross-currency amount is positive, that rates are positive, or that the destination
  account is held in the requested destination currency. Theorems that need one of these say so; `LedgerQuotes` shows
  what happens without them.
- A transfer has one timestamp, taken when its volume is read under the source lock; the clock does not run back.
- A row's id is its position in the table (it stands for the random identifier), and an audit entry's detail is the
  transfer it names. A duplicate key is refused by the unique constraint when the insert is committed.
- Each file operation is atomic, and a rollback's own operations succeed.
- YAML is a pair of functions that read a text as an ordered mapping and print one; what is printed has no line that is
  a bare `---`. What an agent's command file looks like depends only on its source's label and its text.

## Where the code does less than it says

- `Money.ReplayGrossFaithfulIff`: a replay reports the first response's converted amount for every amount exactly when
  the rate fits the stored 8 decimals; for the amounts the limits let through in dollars it is at most three units off.
- `Money.ConfirmsAllIffNotPositive`, `Money.NetNearPreviewIffPositive`: a preview rate of zero switches the deviation
  check off and a negative one turns the deviation negative, so that both confirm every current rate; what the sender
  is promised about the net amount holds exactly for positive preview rates.
- `LedgerQuotes.SolvencyIffNonNegative`: with a negative amount a cross-currency transfer overdraws the destination;
  balances stay non-negative for exactly the non-negative amounts.
- `LedgerQuotes.TotalsFollowRowIff`: totals per currency follow the transfers table exactly when the destination account
  is held in the requested currency or the amount nets to nothing; `LedgerQuotes.WrongCurrencyIsCredited` shows dollars
  arriving as euros.
- `TransferStatus.OneClosingEntryIff`, `TransferStatus.CompletedTwice`: repeating a terminal status is accepted and logged
  once more; there is at most one closing entry exactly when no update does so.
- `PresetComposition.UnlabelledSplitsIff`, `PresetComposition.UnlabelledBodyMayLookFenced`: when no block is attached, a
  composed body can open with something that reads as one, exactly when its lines open with a fence and hold another.
- `PresetManager.RemovalKeepsStepIff`, `PresetManager.StaleLabelComesAbout`: a preset that lists a command but does not
  ship its file can lend its name to a composition, and then leaves the file with its label behind when it is removed.
- `PresetManager.SecondEntryComesAbout`: a manifest may name a command twice; if only the second entry's file is there,
  it is written although no layer provides the command. `PresetManager.InStepThroughoutIff`: nothing else puts command
  files out of step.
- `ExtensionUpdate.CommandFilesRestoredIff`: when an update fails before every command file is backed up, the rollback
  deletes the registered files that were not; all come back exactly when the backups were complete.
- `ExtensionUpdate.DirectoryRestoredIff`: a directory backup left by an earlier failed rollback is put in place of the
  directory when the failure comes before it is cleared. Of a registered extension whose directory is missing there is
  no backup, so the rollback leaves the rejected version's directory in place once it was copied.
- `ExtensionUpdate.Project.Update`: configuration files are backed up next to those an earlier failed rollback has left,
  and a successful update puts all of them over the new version's files.
- `ExtensionNames.DamagedNameIsReused`: an extension whose manifest cannot be loaded does not keep its names.
- `SharedInfra.RefreshIsSafeIff`, `SharedInfraInstaller.FoundFileIsRefreshed`: the template refresh takes a file that was
  only found, and never written by the tool, for its own; the installer does not.

## Model

| member | source | states |
|---|---|---|
| `Money.HalfUpIsNearest` | src/fund_transfer/services/cross_currency_transfer_service.py:201-207 | The nearest whole number of units; ties go away from zero, for negative values too. |
| `Money.HalfEvenIsNearest` | src/fund_transfer/services/transfer_service.py:123 | The nearest whole number of units; ties go to the even neighbour, the default of `quantize` without a mode. |
| `Money.RoundingModesDiffer` | src/fund_transfer/services/transfer_service.py:123 | The two services' roundings differ by at most one unit, and only on exact ties. |
| `Money.CalculateAmounts` | src/fund_transfer/services/cross_currency_transfer_service.py:201-207 | Net plus receiving fee is exactly the converted amount, cost is exactly amount plus sending fee: the later roundings change nothing. |
| `Money.AmountsInRange` | src/fund_transfer/services/cross_currency_transfer_service.py:201-207 | For non-negative amounts and rates every fee is non-negative and the net amount lies between zero and the converted amount. |
| `Money.NetMonotoneInAmount` | src/fund_transfer/services/cross_currency_transfer_service.py:201-207 | Sending more at the same rate never credits less. |
| `Money.NetIsMonotone` | src/fund_transfer/services/cross_currency_transfer_service.py:203-205 | The amount after the receiving fee grows with the converted amount and never faster. |
| `Money.SplittingBarelyChangesFee` | src/fund_transfer/services/cross_currency_transfer_service.py:202 | Sending an amount in n parts changes the total sending fee by at most (n + 1) / 2 units of 0.0001. |
| `Money.ConfirmedIffClose` | src/fund_transfer/services/cross_currency_transfer_service.py:215-229 | At a positive preview rate the rounded percentage check passes exactly the rates less than 1.00005% away from it. |
| `Money.ExecutedNetNearPreview` | src/fund_transfer/services/cross_currency_transfer_service.py:86-93 | When the check passes, executed and previewed net amounts differ by at most 1.00005% of the previewed conversion plus 1.0050005 units, through three roundings on each side. |
| `Money.ConfirmsAllIffNotPositive` | src/fund_transfer/services/cross_currency_transfer_service.py:215-229 | Every current rate is confirmed exactly when the preview rate is zero or negative. |
| `Money.NetNearPreviewIffPositive` | src/fund_transfer/services/cross_currency_transfer_service.py:86-93 | The bound between previewed and executed net amounts holds for all amounts and all confirmed rates exactly when the preview rate is positive. |
| `Money.ReplayGrossFaithfulIff` | src/fund_transfer/services/cross_currency_transfer_service.py:274-279 | A replay recomputes the original converted amount for all amounts exactly when the rate has 8 decimals. |
| `Money.ReplayGrossNear` | src/fund_transfer/services/cross_currency_transfer_service.py:274-279 | For any one amount and rate the recomputed conversion is off by at most one unit and one more per 200 million units sent: at most three units for what the 50,000 USD limit lets through in dollars. |
| `Money.ReplayGrossOff` | src/fund_transfer/services/cross_currency_transfer_service.py:274-279 | It is off whenever the amount times what storing the rate lost exceeds one unit. |
| `Ledger.Find` | src/fund_transfer/repositories/transfer_repository.py:18-23 | A key is found exactly when some row of the table has it, and the answer is such a row. |
| `LedgerInvariants.LimitKept` | src/fund_transfer/services/cross_currency_transfer_service.py:231-248 | Adding a transfer that passes the rolling check keeps every 24-hour window of every account within the daily limit. |
| `LedgerInvariants.CrossKeepsInv` | src/fund_transfer/services/cross_currency_transfer_service.py:51-161 | One cross-currency transfer keeps unique keys, balanced books, solvency, the daily limit in every window and one exact trail per transfer. |
| `LedgerInvariants.PlainKeepsInv` | src/fund_transfer/services/transfer_service.py:61-157 | One plain transfer keeps the same invariant. |
| `LedgerInvariants.CreateKeepsInv` | src/fund_transfer/repositories/account_repository.py:27-68 | Opening an account keeps it; the opening balance is what the audit log records. |
| `LedgerInvariants.CloseKeepsInv` | src/fund_transfer/repositories/account_repository.py:91-129 | Closing an account keeps it; closed accounts stay at zero. |
| `LedgerInvariants.RunKeepsInv` | src/fund_transfer/services/cross_currency_transfer_service.py:90-161 | After any run of openings, closings and both kinds of transfer, each balance is its opening plus incoming minus outgoing amounts and fees, none is negative, every 24-hour window respects the limit, keys are unique and each transfer left exactly its initiated, completed, delivery and screening records. |
| `LedgerRules.KnownKeyAnswers` | src/fund_transfer/services/cross_currency_transfer_service.py:58-63 | A known key is a replay for its own caller and a conflict for any other, in both services. |
| `LedgerRules.CrossRefusedIff` | src/fund_transfer/services/cross_currency_transfer_service.py:65-100 | Each refusal of a new key has its own exact reason, of several the first one in the order of the checks. |
| `LedgerRules.PlainRefusedIff` | src/fund_transfer/services/transfer_service.py:70-122 | The same for the plain service. |
| `LedgerRules.CrossMoves` | src/fund_transfer/services/cross_currency_transfer_service.py:90-139 | Of all accounts only two balances move: the source pays amount and fee, the destination receives the conversion less its fee; one account named twice does both. |
| `LedgerRules.PlainMoves` | src/fund_transfer/services/transfer_service.py:123-126 | The same without fees, at the configured rate. |
| `LedgerRules.CrossRecords` | src/fund_transfer/services/cross_currency_transfer_service.py:90-127 | The one row an execution adds, every column from the request and the current rates; its dollar value is that of the amount sent, in whatever currency. |
| `LedgerRules.CrossTells` | src/fund_transfer/services/cross_currency_transfer_service.py:141-160 | Who is notified of which amounts, and what the audit log says of whom, the screening at the dollar threshold included. |
| `LedgerRules.PlainRecords` | src/fund_transfer/services/transfer_service.py:127-157 | Row and audit entry of a plain transfer, from the request, the accounts and the configured rate. |
| `LedgerRules.ResponseShowsTransfer` | src/fund_transfer/services/cross_currency_transfer_service.py:274-296 | The response to an execution shows what was sent and charged, and a converted amount that is the credited one plus the receiving fee. |
| `LedgerRules.ResponseShowsPlainTransfer` | src/fund_transfer/services/cross_currency_transfer_service.py:274-296 | The response for a plain row shows no fees and no snapshot. |
| `LedgerRules.VolumeIsWindow` | src/fund_transfer/services/cross_currency_transfer_service.py:231-248 | The rolling volume of a sound table is exactly what was sent in the 24 hours up to now. |
| `LedgerRules.RowCounts` | src/fund_transfer/repositories/transfer_repository.py:179-189 | Wherever it stands in the table, a row counts exactly if it is the sender's, completed or processing, and not too old. |
| `LedgerRules.ClosedIsForever` | src/fund_transfer/repositories/account_repository.py:91-129 | Closing is for good: after any later run the account is still empty under its pseudonym, its number has not been given out again and no transfer from or to it was executed. |
| `LedgerRules.ClosedIsAnonymous` | src/fund_transfer/repositories/account_repository.py:111-114 | What a closed account shows of its owner depends on the digest only. |
| `LedgerRules.OpensIff` | src/fund_transfer/repositories/account_repository.py:27-68 | An account is opened exactly in a supported currency, with a non-negative balance and under a free drawn number, and then as asked for. |
| `LedgerRules.PickIsFirstFree` | src/fund_transfer/repositories/account_repository.py:35-41 | The number used is the first free one drawn, or the last one when none is free. |
| `LedgerQuotes.ExecutionHonoursQuote` | src/fund_transfer/services/fx_rate_service.py:43-75 | A transfer executed on a quoted snapshot costs what was quoted and credits it up to the confirmed deviation; with unmoved rates it credits exactly the quote. |
| `LedgerQuotes.QuoteIsUsable` | src/fund_transfer/services/fx_rate_service.py:43-75 | There is a quote exactly where a transfer on the same rates passes the rate checks, and it names the snapshot to confirm. |
| `LedgerQuotes.SolvencyIffNonNegative` | src/fund_transfer/schemas/fx.py:46 | Whatever the ledger and the positive rates, balances stay non-negative exactly for non-negative amounts. |
| `LedgerQuotes.TotalsFollowRowIff` | src/fund_transfer/services/cross_currency_transfer_service.py:81-84 | An executed transfer changes every currency's total by what its row says exactly when the destination account is in the requested currency or the amount at the current rate nets to nothing. |
| `LedgerQuotes.WrongCurrencyIsCredited` | src/fund_transfer/services/cross_currency_transfer_service.py:66-100 | Every amount up to the limit can be credited to an account in another currency: dollars sent for dollars land on a euro account. |
| `LedgerQuotes.PlainTotals` | src/fund_transfer/services/transfer_service.py:123-139 | A plain transfer changes totals by what its row says, and conserves them within one currency. |
| `LedgerConcurrency.NoTwoHolders` | src/fund_transfer/services/cross_currency_transfer_service.py:171-188 | No two requests hold a copy of the same row. |
| `LedgerConcurrency.CrossCommitRefines` | src/fund_transfer/services/cross_currency_transfer_service.py:65-139 | A cross-currency commit from the copies read under locks has the outcome and the tables of the atomic transfer at the time of its volume check; only a key that has come in since the lookup makes it refuse as a duplicate. |
| `LedgerConcurrency.PlainCommitRefines` | src/fund_transfer/services/transfer_service.py:84-157 | The same for a plain transfer. |
| `LedgerConcurrency.CloseCommitRefines` | src/fund_transfer/repositories/account_repository.py:97-129 | Closing under its row lock leaves the tables and the answer of the atomic closing. |
| `LedgerConcurrency.StepRefines` | src/fund_transfer/services/cross_currency_transfer_service.py:58-139 | Every step of every request leaves the tables alone or is one allowed atomic operation on them. |
| `LedgerConcurrency.InterleavingIsSerial` | src/fund_transfer/services/cross_currency_transfer_service.py:58-161 | Any interleaving of lookups, locks, commits, deadlocks and crashes of any number of requests is the serial run of the operations it commits: no update is lost. |
| `LedgerConcurrency.InterleavingKeepsInv` | src/fund_transfer/services/cross_currency_transfer_service.py:94-95 | So balances, solvency, daily limits, unique keys and trails hold under every interleaving. |
| `LedgerProgress.CrossAlone` | src/fund_transfer/services/cross_currency_transfer_service.py:51-161 | A request whose rows nobody holds, run from start to finish in any reachable state, does exactly what the atomic transfer does and answers so. |
| `LedgerProgress.PlainAlone` | src/fund_transfer/services/transfer_service.py:61-159 | So does a plain request. |
| `LedgerProgress.VictimStartsOver` | src/fund_transfer/services/transfer_service.py:26-46 | A deadlock ends a cross-currency request; a plain one starts over without its locks, up to three times. |
| `LedgerProgress.HeldRowIsAwaited` | src/fund_transfer/services/cross_currency_transfer_service.py:171-188 | A destination row another request holds is waited for, with nothing changed. |
| `LedgerReplay.RunKeepsRows` | src/fund_transfer/repositories/transfer_repository.py:54-60 | No run rewrites or removes a row of the transfers table. |
| `LedgerReplay.FindUnique` | src/fund_transfer/repositories/transfer_repository.py:18-23 | With unique keys the lookup answers the one row of the key. |
| `LedgerReplay.RetryAfterAnyRun` | src/fund_transfer/services/cross_currency_transfer_service.py:58-63 | After a transfer and any later run, the same caller's retry changes nothing, names the stored row and, for rates of 8 decimals, answers as the first time. |
| `LedgerReplay.InterleavingKeepsReplies` | src/fund_transfer/services/transfer_service.py:26-46 | Under every interleaving and retry a reply names a row with the request's key and caller, and no two executions name the same row. |
| `LedgerReplay.AtMostOneExecution` | src/fund_transfer/services/transfer_service.py:75-82 | Of all requests of both services that share a key, at most one has moved money. |
| `LedgerReplay.FromScratch` | src/fund_transfer/services/cross_currency_transfer_service.py:58-161 | From an empty database all of this holds after any events. |
| `TransferSession.Session.GetIdempotencyRecord` | src/fund_transfer/repositories/transfer_repository.py:18-23 | The scan returns the row the specification finds, or none. |
| `TransferSession.Session.GetDailyTransferVolumeUsd` | src/fund_transfer/repositories/transfer_repository.py:179-189 | The sum over the table is the volume of completed and processing transfers since the moment. |
| `TransferSession.Session.CreateCrossCurrencyTransfer` | src/fund_transfer/repositories/transfer_repository.py:63-127 | Appends the row and its initiated audit entry, and changes nothing else. |
| `TransferSession.Session.UpdateTransferStatus` | src/fund_transfer/repositories/transfer_repository.py:129-177 | Refuses unknown transfers and forbidden transitions without effect; otherwise changes the one row and logs endings. |
| `TransferSession.Session.CreateTransferNotifications` | src/fund_transfer/services/notification_service.py:20-64 | Adds the sent and the received notification with one audit entry each, in that order. |
| `TransferSession.Session.LoadAccount` | src/fund_transfer/services/cross_currency_transfer_service.py:171-188 | Answers the row object of an active account, or that it was not found. |
| `TransferSession.Session.MoveMoney` | src/fund_transfer/services/cross_currency_transfer_service.py:138-139 | Debits one row and credits the other, which may be the same row. |
| `TransferSession.Session.AmlKycCheck` | src/fund_transfer/services/cross_currency_transfer_service.py:250-269 | Logs a screening exactly when the USD amount reaches the threshold. |
| `TransferServices.StatusSteps` | src/fund_transfer/services/cross_currency_transfer_service.py:129-143 | The status steps from pending over processing to completed end in the completed row and one completed entry. |
| `TransferServices.CrossCurrencyTransferService.Initiate` | src/fund_transfer/services/cross_currency_transfer_service.py:51-161 | The step-by-step service leaves exactly the ledger and the outcome of the atomic transfer, answers with fresh or recomputed amounts, and changes nothing unless it executes. |
| `TransferServices.CrossCurrencyTransferService.Decide` | src/fund_transfer/services/cross_currency_transfer_service.py:66-100 | All checks in their order give exactly the specified terms or error. |
| `TransferServices.CrossCurrencyTransferService.Post` | src/fund_transfer/services/cross_currency_transfer_service.py:102-160 | Insert, status steps, balance moves, notifications and screening add up to the atomic posting, self-transfers included. |
| `TransferServices.TransferService.ExecuteTransfer` | src/fund_transfer/services/transfer_service.py:61-159 | The plain service leaves exactly the atomic transfer's ledger and outcome, and changes nothing unless it executes. |
| `TransferServices.TransferService.ExecuteWithRetry` | src/fund_transfer/services/transfer_service.py:26-46 | Up to three deadlocks are retried to the single execution's result; after four the call fails and nothing has changed. |
| `TransferServices.AccountService.DrawNumber` | src/fund_transfer/repositories/account_repository.py:35-41 | Takes the first free drawn number, or the last one drawn. |
| `TransferServices.AccountService.CreateAccount` | src/fund_transfer/repositories/account_repository.py:27-68 | Adds exactly the account and its audit entry, or reports why not. |
| `TransferServices.AccountService.DeleteAccount` | src/fund_transfer/repositories/account_repository.py:91-129 | Closes and anonymises an account at zero balance, logs it, and refuses otherwise. |
| `TransferStatus.StatusPaths` | src/fund_transfer/repositories/transfer_repository.py:140-150 | From pending, any updates take the status along one of five paths with at most two changes. |
| `TransferStatus.EveryPathOccurs` | src/fund_transfer/repositories/transfer_repository.py:140-145 | Each of the five paths does occur. |
| `TransferStatus.TerminalIsFinal` | src/fund_transfer/repositories/transfer_repository.py:140-150 | A terminal status is never left. |
| `TransferStatus.UpdatesTouchOneRow` | src/fund_transfer/repositories/transfer_repository.py:136-177 | Status updates change one row's status and failure reason and no balance. |
| `TransferStatus.ReasonStands` | src/fund_transfer/repositories/transfer_repository.py:147-153 | An accepted update sets the reason it gives and otherwise keeps the one there is. |
| `TransferStatus.EndingsAreLogged` | src/fund_transfer/repositories/transfer_repository.py:155-175 | Each accepted ending, repetitions included, writes one entry under the final status, and a transfer has ended exactly if there is one. |
| `TransferStatus.OneClosingEntryIff` | src/fund_transfer/repositories/transfer_repository.py:140-175 | A pending transfer gets at most one closing entry from a list of updates exactly when none of them names the status the ones before it have ended the transfer with. |
| `TransferStatus.RepetitionIsLogged` | src/fund_transfer/repositories/transfer_repository.py:147-175 | On an ended transfer exactly an update naming its own status writes a further entry. |
| `TransferStatus.CompletedTwice` | src/fund_transfer/repositories/transfer_repository.py:147-150 | Completing a processing transfer twice is accepted and logged twice. |
| `PresetComposition.ResolveContent` | spec-kit-main/src/specify_cli/presets.py:3114-3289 | The bottom-up loop from the nearest replacing layer computes the recursive meaning of the stack, its error and its metadata block. |
| `PresetComposition.ComposeUpwards` | spec-kit-main/src/specify_cli/presets.py:3166-3244 | The loop's content is the meaning and its two tracked blocks are the top and the base block. |
| `PresetComposition.DefinedIffReplaced` | spec-kit-main/src/specify_cli/presets.py:3153-3163 | A stack has no content exactly when no layer replaces. |
| `PresetComposition.BelowBaseIsIrrelevant` | spec-kit-main/src/specify_cli/presets.py:3141-3171 | Layers below the nearest replacing one never affect the result. |
| `PresetComposition.NormalForm` | spec-kit-main/src/specify_cli/presets.py:3226-3231 | With prepends and appends only: prepends from the top down, the base, appends from the bottom up. |
| `PresetComposition.WrapKeepsPieces` | spec-kit-main/src/specify_cli/presets.py:3232-3244 | A wrapper keeps its own text around every copy of what it wraps and does not look into it; it is refused exactly when its placeholder does not occur. |
| `PresetComposition.FaultFails` | spec-kit-main/src/specify_cli/presets.py:3237-3243 | A wrapper above the base without its placeholder fails the composition. |
| `PresetComposition.LowestFault` | spec-kit-main/src/specify_cli/presets.py:3237-3243 | Nothing else does, and the error names the lowest faulty wrapper. |
| `PresetComposition.TopBlockIsHighest` | spec-kit-main/src/specify_cli/presets.py:3202-3224 | The block is that of the highest contributing layer that has one. |
| `PresetComposition.FieldsOfComposed` | spec-kit-main/src/specify_cli/presets.py:3263-3274 | Field by field: the top block's, with scripts lent by the base where missing, and no strategy. |
| `PresetComposition.ComposedFieldsReadBack` | spec-kit-main/src/specify_cli/presets.py:3246-3289 | Reading the composed command's block gives exactly the fields it was to carry, for a printer whose text is read back. |
| `PresetComposition.ContributionOf` | spec-kit-main/src/specify_cli/presets.py:3179-3224 | What a layer adds to a command is its text below its block; to a template or script, its whole text. |
| `PresetComposition.PlainContribution` | spec-kit-main/src/specify_cli/presets.py:3179-3224 | A text that does not open with a dash contributes all of itself. |
| `PresetComposition.ComposedCommandSplits` | spec-kit-main/src/specify_cli/presets.py:3246-3289 | With fields to show, the output carries exactly one block over the composition of the bodies, and splitting it recovers both; without, it is the body alone, and splits to itself if the texts that can come first do not open with a dash, wrappers included. |
| `PresetComposition.UnlabelledSplitsIff` | spec-kit-main/src/specify_cli/presets.py:3246-3289 | Without fields, a stack of prepends and appends splits to itself exactly unless the lines of its contributions, in order, open with a fence and hold another. |
| `PresetComposition.UnlabelledBodyMayLookFenced` | spec-kit-main/src/specify_cli/presets.py:3282-3289 | Two layers without a block can make a body that reads as fenced. |
| `Frontmatter.SplitFrontmatter` | spec-kit-main/src/specify_cli/presets.py:3179-3200 | The loop over lines finds the block the specification splits off. |
| `Frontmatter.SplitIsLossless` | spec-kit-main/src/specify_cli/presets.py:3179-3200 | Block, a line ending and body make up the text again. |
| `Frontmatter.SplitOfAttached` | spec-kit-main/src/specify_cli/presets.py:3276-3287 | A printed block put before a body is split off as it was. |
| `Frontmatter.InteriorOfBlock` | spec-kit-main/src/specify_cli/presets.py:3179-3200 | The text between the fences of a printed block is what was printed. |
| `Frontmatter.RenderedField` | spec-kit-main/src/specify_cli/presets.py:3265-3274 | Looking a key up in the printed fields: own, inherited or removed. |
| `Text.ReplaceJoinsPieces` | spec-kit-main/src/specify_cli/presets.py:3244 | Replacement puts the text between the pieces the occurrences leave, once, from left to right. |
| `Text.ReplaceOnce` | spec-kit-main/src/specify_cli/presets.py:3244 | A placeholder that occurs once is exactly where the text goes. |
| `Text.LinesMakeTheText` | spec-kit-main/src/specify_cli/presets.py:3185 | Splitting into lines with their endings loses nothing. |
| `PresetStack.ListingInOrder` | spec-kit-main/src/specify_cli/presets.py:495-525 | The listing holds every installed preset once, by priority and then id. |
| `PresetStack.ListingIsTheSortedOrder` | spec-kit-main/src/specify_cli/presets.py:522-525 | Only one arrangement is in that order, so any sort gives it whatever the registry's own order. |
| `PresetStack.DesiredDependsOnListers` | spec-kit-main/src/specify_cli/presets.py:2866-3062 | A command's layers and file depend only on the presets that list it and their priorities. |
| `PresetStack.OverrideWins` | spec-kit-main/src/specify_cli/presets.py:2908-2918 | A project's own override is what is wanted, whatever is installed. |
| `PresetStack.ProviderIsOnTop` | spec-kit-main/src/specify_cli/presets.py:2920-2987 | Without an override the first preset in the order that has a layer is on top, and extensions and core come below all presets. |
| `PresetStack.ReplacingProviderWins` | spec-kit-main/src/specify_cli/presets.py:733-760 | If that preset replaces, its text under its label is what is wanted. |
| `PresetStack.ComposedIsLabelledByLister` | spec-kit-main/src/specify_cli/presets.py:826-850 | A composition is labelled with the first preset in the order that lists the command. |
| `PresetStack.LowerWinsWithoutPresets` | spec-kit-main/src/specify_cli/presets.py:2990-3062 | Without overrides and preset layers the first provider below is wanted, or nothing. |
| `PresetStack.StrategyOfPrinted` | spec-kit-main/src/specify_cli/presets.py:2925-2983 | The manifest's strategy counts; without one the word in the file's own metadata, in any letter case; anything else replaces. |
| `PresetManager.SkippedIff` | spec-kit-main/src/specify_cli/presets.py:612-626 | Of names with an extension part exactly those of extensions that are not there are passed over, and no core command. |
| `PresetInstaller.CollectAllLayers` | spec-kit-main/src/specify_cli/presets.py:2866-3062 | Collects overrides, presets by priority, extensions and core in exactly the specified order. |
| `PresetManager.ReconcileSettles` | spec-kit-main/src/specify_cli/presets.py:702-864 | A pass settles exactly the commands it reaches before one with a faulty wrapper above its base, and leaves commands without layers alone. |
| `PresetManager.InstallFailsIff` | spec-kit-main/src/specify_cli/presets.py:1518-1585 | A preset is refused exactly for its priority, its compatibility, its being installed, or its first command on top of a stack without a base or with a faulty wrapper, and the error names that command or the lowest such wrapper. |
| `PresetManager.InstallSettles` | spec-kit-main/src/specify_cli/presets.py:1498-1615 | A successful install brings the commands it lists into step where they have a layer, and touches no other file or stack; a command without any layer is written exactly if the preset ships a file for it. |
| `PresetManager.RemoveSettles` | spec-kit-main/src/specify_cli/presets.py:1673-1749 | A removal brings the commands the preset shipped into step and touches no other file. |
| `PresetManager.RunKeepsSync` | spec-kit-main/src/specify_cli/presets.py:1498-1749 | After any run of installs and removals every command file a step settled, or that was in step, is exactly the rendering of the resolved content, or absent where that is undefined, unless a later step staled it; files no step touches are as before. |
| `PresetManager.InStepThroughoutIff` | spec-kit-main/src/specify_cli/presets.py:1498-1749 | A file in step stays so throughout a run exactly when no step removes a preset that labels the file without shipping it, or adds one whose manifest ships only a repeated entry for a command without layers. |
| `PresetManager.CompleteRunsStayInStep` | spec-kit-main/src/specify_cli/presets.py:1498-1749 | Presets with a file for every command they list never leave one out of step. |
| `PresetManager.OrderDoesNotMatter` | spec-kit-main/src/specify_cli/presets.py:705-710 | Two runs without such a step that end with the same presets at the same priorities leave the same file, in whatever order they came. |
| `PresetManager.RemovalKeepsStepIff` | spec-kit-main/src/specify_cli/presets.py:1685-1735 | Removing a preset that shipped no file for a command leaves its file in step exactly when it is not labelled with that preset. |
| `PresetManager.StaleLabelComesAbout` | spec-kit-main/src/specify_cli/presets.py:826-850 | Two installs on an empty project bring such a file about. |
| `PresetManager.SecondEntryComesAbout` | spec-kit-main/src/specify_cli/presets.py:590-686 | A preset that names a command twice, the first time without the file, has its second file written for a command the stack does not know. |
| `PresetInstaller.Manager.RegisterCommands` | spec-kit-main/src/specify_cli/presets.py:590-686 | Texts are composed before anything is written, so a failure writes nothing. |
| `PresetInstaller.Manager.ReconcileComposedCommands` | spec-kit-main/src/specify_cli/presets.py:702-864 | The pass over the commands is the specified one, stopping at the first failure. |
| `PresetInstaller.Manager.InstallFromDirectory` | spec-kit-main/src/specify_cli/presets.py:1498-1615 | Registry, command files and error are those of the specified installation; the rollback leaves everything as it was when an error is reported. |
| `PresetInstaller.Manager.RemovePreset` | spec-kit-main/src/specify_cli/presets.py:1673-1749 | Registry and command files are those of the specified removal. |
| `Hooks.LastsOncePerCommand` | spec-kit-main/src/specify_cli/extensions.py:3000-3022 | A manifest's entries for an event hold each command once, and none without a command. |
| `Hooks.LastsWin` | spec-kit-main/src/specify_cli/extensions.py:3000-3022 | A command's entry has the values of its last declaration, enabled, with its priority normalised, and optional unless it says otherwise. |
| `Hooks.LastsOfOneMore` | spec-kit-main/src/specify_cli/extensions.py:3009-3022 | Deleting and re-inserting a repeated command keeps exactly the last declarations in their order. |
| `Hooks.RegisterTwice` | spec-kit-main/src/specify_cli/extensions.py:2946-3043 | Registering the same manifest again changes nothing. |
| `Hooks.OwnAfterRun` | spec-kit-main/src/specify_cli/extensions.py:2946-3082 | After any run, an extension's entries are those of its last registered manifest, or none if unregistered since. |
| `Hooks.OthersAfterRun` | spec-kit-main/src/specify_cli/extensions.py:3024-3036 | Entries of extensions no operation names stay the same in the same order. |
| `Hooks.SortIsStable` | spec-kit-main/src/specify_cli/extensions.py:3084-3104 | The sort is a permutation by priority that keeps the order of equals. |
| `Hooks.StableSortIsUnique` | spec-kit-main/src/specify_cli/extensions.py:3101-3104 | No other list is sorted with the same equals in the same order. |
| `Hooks.HooksForEventAreStable` | spec-kit-main/src/specify_cli/extensions.py:3084-3104 | The hooks of an event are its enabled ones, stably sorted by normalised priority. |
| `Hooks.EnabledKeepTheirOrder` | spec-kit-main/src/specify_cli/extensions.py:3099-3100 | Disabled hooks are left out and the others keep their listed order. |
| `HookExecutor.SanitizeInstalledList` | spec-kit-main/src/specify_cli/extensions.py:2892-2944 | The result arranges exactly the kept items by key. |
| `HookExecutor.SeenIsFaithful` | spec-kit-main/src/specify_cli/extensions.py:2915-2932 | One item is kept for each id that is validly mentioned. |
| `HookExecutor.LastRecordWins` | spec-kit-main/src/specify_cli/extensions.py:2927-2932 | Of several items for one id the last record is kept, |
| `HookExecutor.FirstPlainStays` | spec-kit-main/src/specify_cli/extensions.py:2927-2932 | and without records the first plain mention. |
| `HookExecutor.ArrangementIsUnique` | spec-kit-main/src/specify_cli/extensions.py:2941-2944 | The kept items have one order only. |
| `HookExecutor.Executor.RegisterExtension` | spec-kit-main/src/specify_cli/extensions.py:2853-2870 | The extension is in the list afterwards, all others exactly if they were. |
| `HookExecutor.Executor.UnregisterExtension` | spec-kit-main/src/specify_cli/extensions.py:2872-2890 | The extension is not in the list afterwards, all others exactly if they were. |
| `HookExecutor.Executor.RegisterHooks` | spec-kit-main/src/specify_cli/extensions.py:2946-3043 | The events are those of the specified registration, whether or not the file needed saving. |
| `HookExecutor.Executor.UnregisterHooks` | spec-kit-main/src/specify_cli/extensions.py:3045-3082 | The events are those of the specified removal. |
| `HookExecutor.Executor.GetHooksForEvent` | spec-kit-main/src/specify_cli/extensions.py:3084-3104 | Answers a permutation of the event's enabled hooks, sorted by normalised priority, equals in their listed order. |
| `ExtensionUpdate.Project.Update` | spec-kit-main/src/specify_cli/__init__.py:2279-2572 | Whatever operation fails, registry, installed list and hooks come back, command files as far as they were backed up, and the directory as its backup has it, or as the new version's where there was none and it was placed; a success is a full replacement: registry entry, directory, hooks, list, and every command file with its new content or gone. |
| `ExtensionUpdate.Project.BackUpDirectory` | spec-kit-main/src/specify_cli/__init__.py:2300-2315 | How far the directory backup is for every number of operations that succeed, a stale backup included. |
| `ExtensionUpdate.Project.BackUpCommands` | spec-kit-main/src/specify_cli/__init__.py:2317-2343 | The files backed up are a prefix of the existing registered ones, as long as the operations allow. |
| `ExtensionUpdate.Project.RemoveKeepingConfig` | spec-kit-main/src/specify_cli/extensions.py:1483-1557 | Touches only this extension's entry, directory, hooks and command files, wherever it fails; complete, it removes them. |
| `ExtensionUpdate.Project.Reinstall` | spec-kit-main/src/specify_cli/__init__.py:2393-2398 | Without a directory before, there is a new one exactly when the archive is acceptable and the operations last to the copy. |
| `ExtensionUpdate.Project.InstallRelease` | spec-kit-main/src/specify_cli/extensions.py:1285-1416 | Touches only this extension's parts, wherever it fails; complete, it leaves the new version's. |
| `ExtensionUpdate.Project.Replace` | spec-kit-main/src/specify_cli/__init__.py:2362-2449 | A complete replacement gives back configuration files and metadata; an incomplete one leaves the backup alone. |
| `ExtensionUpdate.Project.Rollback` | spec-kit-main/src/specify_cli/__init__.py:2460-2569 | Restores entry, directory, backed-up command files, hooks and list, and deletes registered files that were not backed up. |
| `ExtensionUpdate.RollbackSum` | spec-kit-main/src/specify_cli/__init__.py:2460-2569 | From any state a failed update can be in, the rollback gives the promised one. |
| `ExtensionUpdate.CommandFilesRestoredIff` | spec-kit-main/src/specify_cli/__init__.py:2474-2511 | All registered command files come back exactly when the update got as far as backing all of them up. |
| `ExtensionUpdate.DirectoryRestoredIff` | spec-kit-main/src/specify_cli/__init__.py:2295-2472 | The directory comes back exactly when no differing stale backup is in the way or it was cleared in time; a missing one stays missing exactly when there is no stale backup and the new version was not yet placed. |
| `ExtensionUpdate.UpdateKeepsUserState` | spec-kit-main/src/specify_cli/__init__.py:2406-2441 | A success keeps installation time, normalised priority and the disabled state, hooks included, and leaves other extensions' hooks in order. |
| `ExtensionUpdate.ListIsKept` | spec-kit-main/src/specify_cli/extensions.py:2853-2890 | After a success the installed list names the same extensions as before, and the updated one. |
| `ExtensionUpdate.ConfigurationIsKept` | spec-kit-main/src/specify_cli/__init__.py:2400-2404 | The user's configuration files are in the new directory as they were, and so is everything else the new version ships. |
| `ExtensionNames.NamespaceOfCommand` | spec-kit-main/src/specify_cli/extensions.py:42 | A name put together as the pattern says has its extension as namespace, a trailing newline or not; |
| `ExtensionNames.NamedByNamespace` | spec-kit-main/src/specify_cli/extensions.py:42 | and only such names have one. |
| `ExtensionNames.NamesAreDeclared` | spec-kit-main/src/specify_cli/extensions.py:690-749 | The names collected are exactly the commands' own and their aliases. |
| `ExtensionNames.Manager.CollectManifestCommandNames` | spec-kit-main/src/specify_cli/extensions.py:676-749 | Accepts exactly the manifests with own-namespace commands, no core id and no repeated name; a reported fault is one the manifest has. |
| `ExtensionNames.Manager.InstalledCommandNames` | spec-kit-main/src/specify_cli/extensions.py:751-779 | The names of all other installed extensions whose manifest can be loaded, each with an owner that declares it. |
| `ExtensionNames.Manager.ValidateInstallConflicts` | spec-kit-main/src/specify_cli/extensions.py:781-797 | Passes exactly well-named manifests without collisions, and reports all collisions otherwise. |
| `ExtensionNames.Manager.InstallFromDirectory` | spec-kit-main/src/specify_cli/extensions.py:1285-1416 | Installs exactly when all checks pass, with the first failed check's error otherwise; then the registry is unchanged, forced or not. |
| `ExtensionNames.RunKeepsInv` | spec-kit-main/src/specify_cli/extensions.py:1285-1557 | Over a run of installs, forced or not, removals and damaged manifests, different loadable extensions' names stay disjoint, primaries in their own namespace and no namespace a core command, exactly when no manifest comes back to names given out meanwhile. |
| `ExtensionNames.DamagedNameIsReused` | spec-kit-main/src/specify_cli/extensions.py:758-764 | A name of an extension whose manifest cannot be loaded can be installed again, and is shared once the manifest is back. |
| `ExtensionNames.OwnerIsUnique` | spec-kit-main/src/specify_cli/extensions.py:781-797 | After such a run a name has one loadable extension, and a command's extension can be read off it; no name is declared twice. |
| `SharedInfra.InstallIsSafe` | spec-kit-main/src/specify_cli/shared_infra.py:309-524 | A non-force install overwrites only what the tool last wrote, changes nothing at or below a symlink, and takes no found file as its own. |
| `SharedInfra.RunsAreSafe` | spec-kit-main/src/specify_cli/shared_infra.py:282-525 | So does every install in any run with template refreshes, user edits and manifest losses, in default or refreshing mode; and every refresh that seizes no found file, and no other. |
| `SharedInfra.RefreshIsSafeIff` | spec-kit-main/src/specify_cli/shared_infra.py:229-270 | A template refresh replaces only what the tool last wrote exactly when it is stopped by a symlink or no template replaces an unchanged file that was found and not written. |
| `SharedInfra.RefreshUnprotectsIff` | spec-kit-main/src/specify_cli/shared_infra.py:244-270 | A found file is taken for the tool's own from then on exactly if the refresh is not stopped and it is one of the templates, missing or unchanged. |
| `SharedInfra.RefreshStopsIff` | spec-kit-main/src/specify_cli/shared_infra.py:247-254 | A refresh is stopped, before it writes anything, exactly by what is no directory on the way to its root or a symlink in a template's place. |
| `SharedInfra.StoppedRefreshIsIdle` | spec-kit-main/src/specify_cli/shared_infra.py:247-270 | A stopped refresh makes at most directories and leaves every file and the manifest alone. |
| `SharedInfra.InstallProvides` | spec-kit-main/src/specify_cli/shared_infra.py:329-484 | Of each asset no symlink keeps it from, an install in any mode writes exactly what is due in that mode and records it as its own; a file it finds and does not know is left alone and recorded as found; nothing else changes. |
| `SharedInfra.InstallCompletes` | spec-kit-main/src/specify_cli/shared_infra.py:345-376 | Only a file where a directory is needed stops an install: what lies behind a symlink is passed over. |
| `SharedInfra.ManagedIff` | spec-kit-main/src/specify_cli/shared_infra.py:309-328 | A tracked file is managed exactly if it is what the tool last wrote there and was not merely found. |
| `SharedInfra.PlanKeeps` | spec-kit-main/src/specify_cli/shared_infra.py:378-474 | Planning makes directories only, records found files as recovered only, and plans only paths that are due and ready. |
| `SharedInfra.WritesSucceed` | spec-kit-main/src/specify_cli/shared_infra.py:476-484 | Planned writes all go through, and leave each path with its content and the tool's own hash. |
| `SharedInfra.WalkIsClear` | spec-kit-main/src/specify_cli/shared_infra.py:128-147 | The walk passes exactly when no part of the path is a symlink or a file. |
| `SharedInfraInstaller.Installer.EnsureDirectory` | spec-kit-main/src/specify_cli/shared_infra.py:92-126 | The walk makes exactly the missing directories, or none when it is stopped. |
| `SharedInfraInstaller.Installer.PlanFile` | spec-kit-main/src/specify_cli/shared_infra.py:387-433 | One file is planned, recorded or passed over as specified. |
| `SharedInfraInstaller.Installer.WriteFile` | spec-kit-main/src/specify_cli/shared_infra.py:476-484 | One planned file is written and recorded as specified. |
| `SharedInfraInstaller.Installer.InstallSharedInfra` | spec-kit-main/src/specify_cli/shared_infra.py:282-525 | Plan against the manifest on entry, write, and save: the state is the specified one; an aborted run saves no manifest. |
| `SharedInfraInstaller.Installer.RefreshSharedTemplates` | spec-kit-main/src/specify_cli/shared_infra.py:229-272 | Checks all places before it writes anything, then writes and records: the state is the specified one. |
| `SharedInfraInstaller.FoundFileIsRefreshed` | spec-kit-main/src/specify_cli/shared_infra.py:244-270 | A found file, never written by the tool, is replaced by the template refresh and is recorded as the tool's own. |
| `DeepMerge.DeepMergePolite` | spec-kit-main/src/specify_cli/_utils.py:201-215 | The loop computes the polite merge. |
| `DeepMerge.MergeConfigs` | spec-kit-main/src/specify_cli/extensions.py:2631-2651 | The loop computes the overriding merge. |
| `DeepMerge.MergesAreDual` | spec-kit-main/src/specify_cli/_utils.py:201-215 | Keeping a base against an update is overriding the update by the base. |
| `DeepMerge.PoliteAt` | spec-kit-main/src/specify_cli/_utils.py:201-215 | Path by path: every base value is kept, and every update path no base value blocks is added. |
| `DeepMerge.UnchangedIffCovered` | spec-kit-main/src/specify_cli/_utils.py:217-222 | The merge changes nothing exactly when the update is covered. |
| `DeepMerge.CoveredIffNoNewPath` | spec-kit-main/src/specify_cli/_utils.py:217-222 | Covered means: no path of the update is missing from the base without being blocked. |
| `DeepMerge.PoliteTwice` | spec-kit-main/src/specify_cli/_utils.py:201-215 | Merging the same update again changes nothing. |
| `DeepMerge.MergeJsonFiles` | spec-kit-main/src/specify_cli/_utils.py:150-227 | A content is returned exactly when there is something to write, and None leaves the file untouched in every other case. |
| `TomlString.EscapedIsEscapeEach` | spec-kit-main/src/specify_cli/agents.py:254-260 | The five replacements in a row are one map over the characters. |
| `TomlString.EscapedIsSafe` | spec-kit-main/src/specify_cli/agents.py:252-261 | The literal has no raw newline, carriage return or tab, and every quotation mark inside is escaped. |
| `TomlString.RoundTripIff` | spec-kit-main/src/specify_cli/agents.py:252-261 | Reading the literal as a TOML basic string gives the text back exactly when its only control characters are newline, carriage return and tab. |

## Left out

- SQLAlchemy, asyncio, HTTP, authentication, tracing and metrics: a transaction is an atomic commit or nothing, and a row lock is held to its end and returns the current row.
- Column widths, the status query, reading notifications, the rate feed and the rate table listing: no property here depends on them.
- The text of error messages and of audit details other than the transfer they name.
- ExecuteWithRetry: does not model the waiting time between attempts; which attempts are deadlock victims is a parameter, and a victim is picked at a row lock, before the attempt has written anything. Attempts cut off at any of their steps are the subject of `LedgerConcurrency`.
- Rendering of agent command files (Markdown, TOML and YAML layout, path rewriting, argument placeholders, legacy in-file wrapping): a file is its source's label and its text.
- Skill files, aliases, several agents at once, prompt companions and legacy directories in presets, extensions and updates: one command file per command.
- Presets with loose command files beside their manifest, and enabling, disabling or re-prioritising an installed preset: they are not reconciled by the code either.
- Extension layers whose conventional file differs from the one their manifest lists.
- OrderDoesNotMatter: like the other results about runs of presets it is about wrappers that hold their placeholder; `PresetManager.ReconcileSettles` and `PresetManager.InstallFailsIff` say what a missing one does to a single pass or install.
- Downloading and unpacking archives, version and compatibility checks: they are parameters of the installs.
- Update: does not remove new command files of an install that failed before its registry entry was written, and does not model an interrupt from the keyboard, which skips the rollback.
- Rollback: its own failure, after which the backup is kept.
- Correction of legacy command names when a manifest is read: manifests are taken as corrected.
- Infinite priorities, which `int` does not convert and the code does not catch.
- RunsAreSafe: covers installs and refreshes without force whose bundled paths do not lie below one another; races with other processes, file modes and failing writes are not modelled.
- InstallProvides: says nothing of a forced install that meets a directory in a file's place, which fails when it comes to write there.
- Hook conditions and their execution, and switching hooks on and off from the command line.
- Environment variables and defaults as configuration sources: the merge of two sources is modelled, not where they come from.
- Strings are sequences of Unicode scalar values; lone surrogates do not occur.
