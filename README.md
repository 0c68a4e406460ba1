# NeoBank core, modelled in Dafny

NeoBank is a small Next.js banking demo, with an alternate Express back end.
This project models the part of it that is ledger and identifier logic rather than UI:

- the CPF validator and its `ddd.ddd.ddd-dd` mask.
- the PIX form. This covers key normalisation and `handleTransfer`: its chain of checks, the in-place debit and credit of the loaded account array, the write-back to the account store, and the two records it appends to the transaction log.
- the login and sign-up rules of the landing page. This includes the retry loop that picks an unused account number.
- the Express handlers over the e-mail-keyed `users.json` array.
- the read-side views:
  - the statement filter and totals;
  - the dashboard's three latest records and its greeting;
  - the FAQ search;
  - the status and priority badges.

Money is integer cents throughout the front-end model, and the initial balance of R$ 5.000 is `5000 * 100`. The amount field holds digits only and is read as cents. The Express back end's `saldo`/`valor` are plain integers.

Files and modules:

| file | module | contents |
|---|---|---|
| `wrappers.dfy` | `Wrappers` | `Option` |
| `text.dfy` | `Text` | the string built-ins the sources use: `replace(/\D/g, "")`, `trim`, `includes`, `toLowerCase`, `toString`/`parseFloat` of digit strings |
| `seqs.dfy` | `Seqs` | `filter` and sums over sequences |
| `cpf.dfy` | `Cpf` | CPF validity (the `IsValidCpf` method with its two summing loops, proved against the `ValidCpf` predicate) and the mask |
| `ledger.dfy` | `Ledger` | account and transaction records, and the two JSON stores as classes: append for POST, replace-all for PUT, append-only log |
| `statement.dfy` | `Statement` | the statement screen |
| `pix.dfy` | `Pix` | the PIX form: the `Transfer` specification function, the `HandleTransfer` method proved against it, and the lemmas about `Transfer` |
| `auth.dfy` | `Auth` | the login and sign-up page |
| `server.dfy` | `Server` | the Express handlers: pure functions over the users array, and the writing handlers as methods of `UserDb` |
| `dashboard.dfy` | `Dashboard` | the dashboard |
| `support.dfy` | `Support` | the support screen |

The transfer handler's checks run in this order and on this basis:

- the amount is refused only when empty or zero;
- the funds test compares the amount with the **session's** balance, and it comes **before** the key is validated;
- a sender missing from the store does not stop the transfer: the two records are still logged and success is reported;
- both records carry the same `fromCPF`/`toCPF` pair.

## Model

| member | source | states |
|---|---|---|
| Text.OnlyDigits | components/pix-transfer.tsx:76 | `replace(/\D/g, "")` yields only digits and is no longer than its input |
| Text.OnlyDigitsIdempotent | components/pix-transfer.tsx:162 | removing non-digits twice is removing them once |
| Text.OnlyDigitsAppend | components/pix-transfer.tsx:101 | removing non-digits distributes over concatenation |
| Text.OnlyDigitsEmpty | components/pix-transfer.tsx:122 | the digits-only form is empty exactly when the input has no digit, which is when line 122's test fails |
| Text.DigitsValueZero | components/pix-transfer.tsx:145 | a digits-only amount is worth zero exactly when every digit is '0' |
| Text.DecimalStringRoundTrip | components/pix-transfer.tsx:208 | reading back `n.toString()` gives `n` |
| Text.DecimalStringInjective | components/pix-transfer.tsx:208 | two numbers print alike exactly when they are equal |
| Text.SixDigitDecimal | app/page.tsx:81 | every number from 100000 to 999999 prints as six digits |
| Text.Trim | components/pix-transfer.tsx:139 | `trim()` is empty exactly when the input is all white space, and the result neither starts nor ends with white space |
| Text.ContainsAt | components/statement.tsx:96 | `includes(p)` holds exactly when `p` occurs at some position |
| Text.Lower | components/support.tsx:88-90 | `toLowerCase()` keeps the length and lower-cases each character |
| Seqs.Filter | components/statement.tsx:55 | `filter` keeps exactly the elements satisfying the test; the result is never longer |
| Seqs.FilterIsSubsequence | components/statement.tsx:92-99 | what `filter` keeps, it keeps in order |
| Cpf.IsValidCpf | components/pix-transfer.tsx:75-97 | both summing loops compute the weighted sums, and the result is exactly `ValidCpf`: eleven digits, not all equal, both check digits right |
| Cpf.ValidCpfCharacterised | app/page.tsx:46-73 | the second copy of the validator accepts exactly when there are eleven digits, not all equal, and d10 and d11 match the written-out formulas `11 - (Σ dᵢ·(10-i) mod 11)` and `11 - (Σ dᵢ·(11-i) mod 11)`, a result above 9 read as 0 |
| Cpf.CheckDigit | components/pix-transfer.tsx:84-85 | a check digit is at most 9, and it is 0 exactly when the sum is 0 or 1 mod 11 |
| Cpf.RepeatedDigitsPassCheckDigits | components/pix-transfer.tsx:78 | every eleven-digit string of one repeated digit satisfies both check digits, so the repeated-digit test alone rejects those strings |
| Cpf.SampleValidCpf | components/pix-transfer.tsx:75-97 | `52998224725` is accepted |
| Cpf.SampleInvalidCpf | components/pix-transfer.tsx:75-97 | `52998224724` (last digit altered) is rejected |
| Cpf.FormatCpf | components/pix-transfer.tsx:100-103 | the mask keeps exactly the input's digits; with fewer than 11 digits it returns the digits unchanged; with 11 or more it adds three mask characters, and digits beyond the eleventh follow unmasked |
| Cpf.FormatCpfMask | app/page.tsx:94-97 | exactly 11 digits give 14 characters, '.' at 3 and 7, '-' at 11, digits elsewhere |
| Cpf.FormatCpfLength | app/page.tsx:94-97 | the mask is at most 14 characters exactly when there are at most 11 digits |
| Cpf.FormatCpfIdempotent | app/page.tsx:94-97 | masking a masked value changes nothing |
| Cpf.ValidCpfIgnoresMask | app/page.tsx:46-47 | validity depends on the digits alone, so masking does not change it |
| Ledger.FindByCpf | components/pix-transfer.tsx:178 | `find` by digits-only CPF returns the first matching account, or none exactly when no account matches |
| Ledger.FindByCpfSameMatches | components/pix-transfer.tsx:178-190 | two stores whose accounts match the digits at the same positions give the same `find` result |
| Ledger.FindByCpfAfterReplace | components/pix-transfer.tsx:190 | replacing an account by one with the same CPF digits changes no lookup |
| Ledger.TotalAfterBalanceChange | components/pix-transfer.tsx:192-193 | changing one balance changes the total by exactly the difference |
| Ledger.AccountStore.constructor | app/api/accounts/route.ts:18-25 | a missing accounts file reads as the empty array |
| Ledger.AccountStore.List | app/api/accounts/route.ts:27-37 | GET returns the whole array |
| Ledger.AccountStore.Append | app/api/accounts/route.ts:39-56 | POST appends one account at the end and changes nothing else |
| Ledger.AccountStore.ReplaceAll | app/api/accounts/route.ts:58-70 | PUT replaces the whole array by the one sent |
| Ledger.TransactionLog.constructor | app/api/transactions/route.ts:18-25 | a missing log file reads as the empty array |
| Ledger.TransactionLog.List | app/api/transactions/route.ts:27-37 | GET returns the whole log |
| Ledger.TransactionLog.Append | app/api/transactions/route.ts:39-56 | POST appends one record; earlier records are untouched |
| Statement.SortByDate | components/statement.tsx:56 | the sort result is newest first and a permutation of its input |
| Statement.InsertKeepsOrder | components/statement.tsx:56 | inserting one record into a newest-first list keeps it newest first |
| Statement.UserTransactionsSpec | components/statement.tsx:54-56 | the loaded statement holds exactly the records whose `fromCPF` or `toCPF` is the user's, each as often as logged, newest first |
| Statement.FilteredTransactions | components/statement.tsx:92-99 | a record is kept exactly when the selected type admits it |
| Statement.FilteredTransactionsSpec | components/statement.tsx:92-99 | the filtered list is a subsequence. "all" keeps everything. "income" keeps exactly the amounts > 0, "expense" exactly the amounts < 0, and "pix" exactly the types containing "pix" |
| Statement.PeriodIgnored | components/statement.tsx:92-99 | two views that differ only in period or date range filter alike |
| Statement.TotalIncome | components/statement.tsx:101 | the sum of the positive amounts is ≥ 0 |
| Statement.TotalExpense | components/statement.tsx:103 | the sum of the absolute values of the negative amounts is ≥ 0 |
| Statement.TotalsAreFilteredSums | components/statement.tsx:101-103 | the totals equal the source's `filter` then `reduce`: income is the sum of the records with amount > 0, expense minus the sum of those with amount < 0 |
| Statement.TotalsBalance | components/statement.tsx:101-103 | total income minus total expense equals the sum of all amounts listed |
| Statement.NetSorted | components/statement.tsx:56 | sorting does not change the sum of the amounts |
| Statement.NetAfterAppend | app/api/transactions/route.ts:47 | appending records to the log adds to a filtered statement the sum of the appended records it keeps |
| Statement.UserTransactionsAfterPair | components/statement.tsx:54-56 | after two records are logged, a user's statement changes by the amounts of those that name the user as either party, and lists them |
| Statement.TransactionIcon | components/statement.tsx:71-82 | PIX icon exactly for `pix_received`/`pix_sent`, TED exactly for `ted_received`/`ted_sent`, default otherwise |
| Statement.IconAgreesWithPixFilter | components/statement.tsx:71-99 | a row with the PIX icon passes the "pix" filter, and a TED row does not |
| Statement.OwnTransactions | components/pix-transfer.tsx:211-234 | corrected statement: newest first, a permutation of exactly the records the party owns (the debit for the sender, the credit for the recipient), each of which names the party |
| Statement.OwnTransactionsAfterPair | components/pix-transfer.tsx:211-237 | after two records are logged, the corrected statement changes by the amounts of the records the party owns |
| Pix.PixKeyChange | components/pix-transfer.tsx:119-131 | a key with any digit becomes its mask when it has at most 11 digits; with more digits the field keeps its old value; a key without digits is stored verbatim |
| Pix.PixKeyChangeStoresMask | components/pix-transfer.tsx:122-126 | a key with a digit is stored in at most 14 characters and keeps its digits |
| Pix.PixKeyChangeManglesEmail | components/pix-transfer.tsx:122 | typing `ana1@mail.com` stores `1` |
| Pix.PixKeyChangeIntended | components/pix-transfer.tsx:121-130 | corrected normalisation: a key with any character other than a digit, '.' or '-' is kept verbatim; so is a key without digits |
| Pix.PixKeyChangeIntendedOnCpfInput | components/pix-transfer.tsx:121-126 | on CPF-shaped input the corrected normalisation agrees with the written one |
| Pix.PixKeyChangeIntendedKeepsEmail | components/pix-transfer.tsx:128-129 | under the corrected normalisation `ana1@mail.com` is kept |
| Pix.Rejection | components/pix-transfer.tsx:139-184 | no check fails exactly when all six checks pass: key not blank, amount nonzero, within the session balance, a valid CPF, not the sender's own, found in the store |
| Pix.MoveBalance | components/pix-transfer.tsx:192-193 | with two different accounts, the sender loses x and the recipient gains x; one account updated twice is unchanged; every other account is untouched; the total is conserved |
| Pix.HandleTransfer | components/pix-transfer.tsx:133-253 | the new store, the new log and the outcome are exactly those of `Transfer` on the old store and log |
| Pix.CompleteTransfer | components/pix-transfer.tsx:189-237 | past the checks, the new state is `Complete`: debit and credit only if the sender is found, both records either way |
| Pix.TransferRejections | components/pix-transfer.tsx:139-184 | a transfer is rejected exactly when a check fails. A rejection leaves the store and the log unchanged. The first failing check decides the error: blank key, then zero or empty amount, then funds (an amount above the session balance, whatever its sign), then invalid CPF, then self-transfer, then unknown key |
| Pix.TransferNeverToSelf | components/pix-transfer.tsx:170-174 | a key with the sender's own digits is always rejected with nothing changed |
| Pix.TransferMovesMoney | components/pix-transfer.tsx:190-203 | the sender and recipient are distinct accounts found by digits; the sender loses x and the recipient gains x; every other account is untouched; the total is conserved; the sender's new balance is reported |
| Pix.TransferCanOverdraw | components/pix-transfer.tsx:153 | when the session balance exceeds the stored one, a transfer can leave the stored sender balance negative |
| Pix.RecordIdsDistinct | components/pix-transfer.tsx:208-224 | the `_out` and `_in` ids never coincide, and records from different clock readings never share an id |
| Pix.TransferLogsPair | components/pix-transfer.tsx:208-237 | exactly two records are appended, earlier ones untouched: `t_out` then `t_in`, amounts `-x` and `x` with x > 0, both from `user.cpf` to the recipient's CPF, status "completed" |
| Pix.TransferWithoutSenderStillLogs | components/pix-transfer.tsx:190-237 | with no stored sender, balances are unchanged but the two records are still logged and success is reported |
| Pix.TransferKeepsBalancesNonNegative | components/pix-transfer.tsx:153-193 | no stored balance goes negative, provided none was before and the session balance does not exceed the sender's stored balance |
| Pix.TransferKeepsCpfs | components/pix-transfer.tsx:192-195 | a transfer changes no stored CPF and keeps them pairwise distinct |
| Pix.LookupIgnoresStoredMask | components/pix-transfer.tsx:178-190 | masking a stored CPF changes no lookup by digits |
| Pix.StatementShowsBothRecords | components/statement.tsx:55 | after a transfer, both records appear in the sender's and in the recipient's statement, and neither statement's net changes |
| Pix.OwnStatementTracksBalance | components/pix-transfer.tsx:211-237 | with the corrected statement, the sender's net drops by x and the recipient's rises by x, as the balances do |
| Auth.CpfFieldChange | app/page.tsx:99-105 | the field takes the mask when the input has at most 11 digits and keeps its value otherwise, so it never exceeds 14 characters |
| Auth.CpfFieldStaysShort | app/page.tsx:99-105 | from an empty field, any sequence of inputs leaves at most 14 characters |
| Auth.CpfExists | app/page.tsx:88-92 | true exactly when some stored account has the same CPF digits |
| Auth.FindCredentials | app/page.tsx:123 | finds the first account whose CPF digits and exact password both match, or none exactly when none does |
| Auth.SessionOf | app/page.tsx:134-141 | the session copies name, cpf, balance, accountNumber, agency and password |
| Auth.HandleLogin | app/page.tsx:107-153 | the result is `Login` on the store |
| Auth.LoginSpec | app/page.tsx:114-141 | an invalid CPF is rejected first. Login succeeds exactly when the CPF is valid and some account matches digits and password, and the session is then a copy of such an account |
| Auth.CandidateNumber | app/page.tsx:81 | each draw gives a six-digit number from 100000 to 999999 |
| Auth.FirstFreeDraw | app/page.tsx:80-82 | the first draw whose number is unused: every earlier draw is taken |
| Auth.GenerateAccountNumber | app/page.tsx:76-85 | the retry loop returns the number of the first free draw, six digits in [100000, 999999], used by no stored account |
| Auth.NewAccount | app/page.tsx:196-204 | a new account has the trimmed name, the CPF as typed, the password, 5000 reais in cents, agency "0001" and the given number and date |
| Auth.CreateAccount | app/page.tsx:155-234 | the outcome and the new store are exactly those of `Registration` |
| Auth.RegistrationRejections | app/page.tsx:162-190 | refusals come in order: blank name, invalid CPF, CPF taken, password under 6, mismatch. A refused form saves nothing. An accepted form (exactly when all checks pass) appends one account |
| Auth.RegisteredAccountShape | app/page.tsx:196-222 | the stored account has the fixed shape and a six-digit number unused before, and the session copies it |
| Auth.RegistrationKeepsStoreUnique | app/page.tsx:174-206 | registration keeps CPF digits and account numbers pairwise distinct |
| Auth.LoginAfterRegistration | app/page.tsx:123-141 | right after signing up, logging in with the same CPF and password opens the session just created |
| Server.Record | server.js:16-19 | one entry `{tipo, valor, data}` is appended to the list, which is created if absent; earlier entries and every other field are untouched |
| Server.FindEmail | server.js:23 | `find` by e-mail returns the first match, or none exactly when none matches |
| Server.Login | server.js:28-34 | login succeeds exactly when some user has that e-mail and password, and returns such a user |
| Server.LoginWithUniqueEmails | server.js:28-34 | with distinct e-mails, login succeeds exactly when the user with that e-mail has that password |
| Server.Extrato | server.js:67-72 | the handler fails exactly when no user has the e-mail |
| Server.ExtratoAfterRecord | server.js:16-19 | after one entry is recorded, the statement is the previous one with the entry at the end |
| Server.TransferUsers | server.js:57-63 | between two users, the sender loses `valor` and gets "Envio Pix" `-valor`, the recipient gains it and gets "Recebido Pix" `valor`. A self-transfer leaves the balance as it was and appends both entries. Others and e-mails are untouched, and the total is conserved |
| Server.TransferChecksOnlyBalance | server.js:59 | with both users present the transfer goes ahead exactly when `valor` does not exceed the sender's balance, so any non-positive amount goes through |
| Server.SameEmailsKeepUnique | server.js:35-72 | a handler that keeps the e-mails keeps them distinct |
| Server.UserDb.Register | server.js:20-27 | an e-mail already present is refused with nothing written. Otherwise one user with `saldo` 0 and empty `transacoes` is appended. E-mails stay distinct and the total is unchanged |
| Server.UserDb.Deposit | server.js:35-43 | a missing user throws with nothing written. Otherwise the balance rises by `valor`, unchecked, and one "Depósito" entry is appended. The total rises by `valor` |
| Server.UserDb.Withdraw | server.js:44-53 | a missing user throws. A balance below `valor` is refused with nothing written. Otherwise the balance drops by `valor` and stays ≥ 0, one "Saque" entry with `+valor` is appended, and the total drops by `valor` |
| Server.UserDb.Transfer | server.js:54-66 | refused, with nothing written, when either user is missing or the sender has less than `valor`. Otherwise the new array is `TransferUsers`, the reply carries the sender, and the total is conserved |
| Server.UserDb.MoveAndRecord | server.js:60-63 | the four in-place updates, applied in turn, produce `TransferUsers` |
| Dashboard.RecentTransactionsSpec | components/dashboard.tsx:73-76 | at most three records, as many as the user has up to three, all the user's, newest first, a prefix of the statement; a left-out record of the user is no later than any shown |
| Dashboard.WithBalance | components/dashboard.tsx:91-94 | only the balance changes; every other field of the session is kept |
| Dashboard.SessionStaysInSync | components/pix-transfer.tsx:198-203 | a session that matches the sender's stored account still matches it after a transfer once the reported balance is applied |
| Dashboard.FirstName | components/dashboard.tsx:121 | `split(" ")[0]` is a prefix of the name with no space, followed by a space or the end of the name |
| Dashboard.FirstNameOf | components/dashboard.tsx:121 | the first name of "first rest" is "first" |
| Support.FilteredFaq | components/support.tsx:87-93 | an item is kept exactly when the lower-cased term occurs in its lower-cased question or answer and the category is empty or its own |
| Support.FilteredFaqSpec | components/support.tsx:87-91 | the result is a subsequence of the items; an empty term and an empty category keep every item |
| Support.SearchIgnoresCase | components/support.tsx:88-90 | the search ignores the case of the term |
| Support.PixCategoryShowsPixQuestions | components/support.tsx:32-59 | the PIX category with nothing typed shows exactly the first two FAQ items |
| Support.StatusColor | components/support.tsx:111-120 | yellow exactly for "Em andamento", green exactly for "Resolvido", gray exactly for anything else |
| Support.PriorityColor | components/support.tsx:122-133 | red exactly for "Alta", blue exactly for "Média", gray exactly for anything else, "Baixa" included |

## Left out

- I/O:
  - the `fetch` calls of `lib/api.ts` and their localStorage fallback, and so a failure of `saveAccount`, `updateAccounts` or `saveTransaction`;
  - the `fs` plumbing of the two API routes;
  - `readUsers`/`writeUsers` of the Express back end.
  The stores are the in-memory classes `AccountStore`, `TransactionLog` and `UserDb`, and every write succeeds.
- Concurrency: the lost update between `getAccounts` and the PUT is not modelled, and neither are concurrent sign-ups with one CPF. One operation runs at a time.
- Time and randomness are parameters. `Date.now()`/`new Date()` is the `stamp` or `now`/`createdAt` argument. `Math.random()` is a sequence of draws, each below 900000.
- Both records of a transfer take one clock reading; the source reads the clock once per record date.
- Auth.GenerateAccountNumber: requires that some draw gives an unused number. When every draw is taken, the source loops forever.
- Auth.Registration and Auth.CreateAccount: ask the same of the draws, but only for a form that passes every check, since a refused form draws nothing.
- Floating point: balances in reais (`amount / 100`) are exact cents here, and `Intl.NumberFormat` currency formatting is not modelled.
- Date formatting (`toLocaleString`, date-fns) is not modelled. Record dates are opaque integers, and the `data` of server entries is an opaque string.
- The setTimeout delays, the `neobank-session` localStorage entry, React state and all rendering are not modelled.
- Login and sign-up messages, and the PIX success message, are reduced to constructors of the outcome datatypes.
- Statement.SortByDate: it is proved to be a newest-first permutation, not to be stable for records with equal dates.
- Text.Trim: the white space removed is ASCII white space and NBSP, not every Unicode space `trim` removes.
- Text.Lower: lower-casing covers ASCII and Latin-1 capitals only.
- The password length is counted in characters, not UTF-16 code units.
- The Express back end's request bodies are taken as well-typed. `valor` is an integer, and e-mails and passwords are strings. JSON coercions of other types are not modelled.
- The statement and dashboard screens are modelled as written, with `Statement.UserTransactions`. `Statement.OwnTransactions` is the corrected statement of the second finding.
- components/settings.tsx, components/bank-transfer.tsx, public/script.js, the QR code and the hard-coded key, bank and contact lists are not part of this model.

## Findings

| source | as written | input that shows it | evidently intended | confidence | as-written member | corrected member |
|---|---|---|---|---|---|---|
| components/pix-transfer.tsx:122 | the "only numbers" test is applied to the input after its non-digits are removed, so it holds whenever the key has any digit at all, and e-mail, phone and random keys are reduced to their digits | typing `ana1@mail.com` into the empty key field stores `1` | mask only keys made of digits and CPF punctuation; keep other keys as typed (the comment at line 128) | not executed | Pix.PixKeyChangeManglesEmail | Pix.PixKeyChangeIntended |
| components/pix-transfer.tsx:219-220, 232-233 with components/statement.tsx:55 | both records of a transfer carry `fromCPF = sender` and `toCPF = recipient`, and the statement keeps a record naming the user as either party; so each party sees the debit and the credit, and its statement net does not move | any completed transfer: the sender's statement lists "PIX recebido de" themselves for `+x` | each party's statement shows its own side of the transfer and tracks its balance | not executed | Pix.StatementShowsBothRecords | Pix.OwnStatementTracksBalance |
