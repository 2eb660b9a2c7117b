# Banking bot dialogue and ledger, in Dafny

This project models the core of a Telegram banking bot. A user registers (name, email,
phone), takes a loan, donates, deposits and transfers money by answering one prompt at a
time. Each user's conversation is an aiogram finite-state machine: a state plus a scratch
dictionary. The model keeps one conversation per user (see "## Left out"). Each handler reads one text message, may write to an SQLite ledger, and moves
the user to the next state. The ledger has four tables (users, accounts, transactions,
loans), CHECK and UNIQUE constraints, and a trigger that adds every inserted transaction's
amount to the account whose id is the row's `accountId`.

Modules, one per file:

- `Wrappers` (`wrappers.dfy`): `Option` and `Result`.
- `Validators` (`validators.dfy`): `is_valid_name`, `is_valid_email` (the regular
  expression as a string predicate, proved equal to the language it denotes),
  `is_valid_phone` and `is_positive_amount`, plus the duration menu and the
  case-insensitive "yes".
- `LoanQuote` (`loan_quote.dfy`): the limits and the repayment quote, over `real`.
- `Database` (`database.dfy`): rows, the tables as one value, each SQL statement as a
  function to `Ok(tables)` or `Err(IntegrityError)`, and the schema invariant `Valid`. The
  class `Store` holds the committed tables and models `create_user`, `get_account_balance`
  and `update_account_balance`.
- `Writes` (`writes.dfy`): the statement sequence each handler runs before its single
  commit, and lemmas on what a commit does to balances, rows and the bank's total. It also
  keeps the bot's own invariants: one account per user, numbers "ACC" + id, loans at their
  principal and within the cap.
- `Dialogue` (`dialogue.dfy`): states, scratch data, the router's dispatch order, and the
  class `Bot`. Its fields are the session store and the database, and it has one method per
  handler. `Bot.Valid` holds the schema, the ledger invariants, and what each state
  guarantees about its scratch data. Every handler preserves it.

Commit semantics: a handler works on a copy of the committed tables. It stores the copy
back (`Database.Commit`) only if every statement returned `Ok`. Otherwise closing the
connection without a commit rolls everything back.
`float()` is the parameter `Bot.parseFloat`, which returns `None` where Python raises
`ValueError`.

Where the code and its documentation disagree, the model follows the code. In
particular:

- Phone numbers are stored exactly as typed.
- Phone is not unique, and a transfer goes to the first matching user.
- The "loan" branch of `process_transaction_amount` can never be reached.
- `confirm_loan` and `process_transfer_amount` run their statements as written, even
  though the trigger then moves the money a second time (see Findings). The corrected
  statements are modelled and proved beside them, but the bot does not use them.

## Model

| member | source | states |
|---|---|---|
| Validators.ValidNameIffNonSpace | bot.py:154-155 | a name is accepted exactly when it contains a character that is not whitespace |
| Validators.PatternIffLanguage | bot.py:158 | the left-to-right check (first '@', last '.') accepts exactly the language of `[\w\.-]+@[\w\.-]+\.\w+` |
| Validators.ValidEmailIffRegex | bot.py:157-158 | `is_valid_email` accepts exactly what `re.match` with `^...$` accepts, including one trailing newline before `$` |
| Validators.AllDigitsIff | bot.py:161 | the recursive digit scan holds exactly when every character is a digit |
| Validators.ValidPhoneIff | bot.py:160-161 | a phone is accepted exactly when it has 10 to 15 characters and all are digits; nothing is normalised |
| Validators.DurationOf | bot.py:91-95 | an accepted duration text denotes 3, 6 or 12 months |
| Validators.Lower | bot.py:114 | lower-casing keeps the length and maps each character on its own |
| Validators.IsYesIff | bot.py:114 | only a three-letter "yes", in any mix of cases, confirms a loan |
| LoanQuote.LoanQuote | bot.py:98-102 | the monthly payment times the duration is the total repayment |
| LoanQuote.QuoteInterest | bot.py:98-101 | the total repaid exceeds the principal by 23% a year, pro rata over the term |
| LoanQuote.QuotePositive | bot.py:101-102 | in exact arithmetic, a positive principal gives a total above it and a positive monthly payment, so the CHECK `monthlyPayment > 0` cannot fire |
| LoanQuote.QuoteLargestSixMonthLoan | bot.py:98-102 | 45000 over 6 months repays 50175 in payments of 8362.5 |
| Database.EmptyValid | database.py:5-68 | a new database satisfies every schema constraint |
| Database.InsertUser | database.py:10-17 | a users row is refused exactly when the id or the email is taken (phone is not unique); otherwise only that row is added; constraints are kept |
| Database.InsertAccount | database.py:20-29 | an accounts row is refused exactly when its number is taken or its balance is negative; otherwise it gets the next AUTOINCREMENT id |
| Database.InsertTransaction | database.py:57-65 | the row is appended and the trigger adds its amount to the account with id = accountId and to no other; with no such account only the row is added; the insert fails as a whole when the trigger would break CHECK (balance >= 0) |
| Database.UpdateBalanceWhereUser | bot.py:130 | every account of the user gains the amount and no other changes; the statement fails as a whole if one would go negative |
| Database.UpdateBalanceWhereId | database.py:109 | only the account with that id changes; an unknown id matches no row |
| Database.InsertLoan | database.py:44-54 | a loan row is refused exactly when a loans CHECK fails |
| Database.SumRemainingAppend | bot.py:75-76 | a new loan adds its remaining balance to its own user's outstanding sum and to no other user's |
| Database.AccountIdOf | bot.py:359-360 | the account found for a user belongs to that user, and with one account per user it is the only one |
| Database.TotalUpdate | database.py:61-63 | changing one account's balance changes the bank's total by the same amount |
| Database.InsertTransactionTotal | database.py:57-65 | an inserted row changes the bank's total by its amount when it hits an account, and not at all otherwise |
| Database.UpdateBalanceWhereUserTotal | bot.py:130 | with one account per user, an update by user id changes the total by the amount if the user has an account |
| Database.Store.constructor | database.py:5-68 | the database starts empty and valid |
| Database.Store.CreateUser | database.py:72-84 | a duplicate email writes nothing; otherwise exactly one users row is added, under the next AUTOINCREMENT id, and no account is created |
| Database.Store.GetAccountBalance | database.py:86-97 | returns the stored balance for an existing id and None for an unknown one |
| Database.Store.UpdateAccountBalance | database.py:99-117 | an unknown id or a balance that would go negative changes nothing; otherwise only that account gains the amount |
| Writes.NatToString | bot.py:255 | the decimal rendering is non-empty, all digits, and one digit exactly for n < 10 |
| Writes.AccountNumberInjective | bot.py:255 | different Telegram ids give different account numbers "ACC" + id |
| Writes.NewUserConsistent | bot.py:251-258 | adding a new user with one savings account numbered "ACC" + id and balance 0 keeps the ledger invariants |
| Writes.RegistrationEffect | bot.py:251-258 | registration commits exactly when the id is new and the email unused; then it adds the user and one savings account numbered "ACC" + id with balance 0, and nothing else; otherwise neither is written |
| Writes.LoanWritesEffect | bot.py:125-144 | confirm_loan as written commits exactly when the loan passes its CHECKs; it appends one loan and one 'Loan' row, and credits each account once for its owner and once more if its id equals the Telegram id |
| Writes.LoanStatementsCredit | bot.py:130-136 | after the UPDATE by userId and the 'Loan' row keyed by the Telegram id, each account has gained the amount once if its owner is the user and once more if its id equals the Telegram id |
| Writes.LoanWritesConsistent | bot.py:125-144 | a committed loan within the limit and the cap keeps every ledger invariant |
| Writes.LoanCommitConsistent | bot.py:125-144 | a loan within the limit and the cap, committed as written or rolled back, leaves the schema and every ledger invariant true |
| Writes.LoanCreditsOnce | bot.py:130-136 | when no account's id equals the Telegram id, the user's account gains exactly the principal, and so does the bank's total |
| Writes.LoanCreditedTwice | bot.py:133-136 | as written, user 1 with account 1 receives 200 for a loan of 100 |
| Writes.LoanWritesFixed | bot.py:133-142 | the corrected writes append the loan row at its principal |
| Writes.LoanFixedCreditsOnce | bot.py:133-142 | the corrected loan commits exactly when its CHECKs pass; it credits the borrower's account by exactly the principal and touches no other account; the bank's total rises by the principal |
| Writes.LoanFixedCommitConsistent | bot.py:125-144 | the corrected loan, committed or rolled back, keeps every ledger invariant |
| Writes.UpdateWhereUserConsistent | bot.py:442-445 | an update by user id keeps the ledger invariants, the users and the loans |
| Writes.InsertTransactionConsistent | database.py:57-65 | an inserted row keeps the ledger invariants, the users and the loans |
| Writes.SimpleTransactionEffect | bot.py:362-375 | a deposit or donation commits exactly when the balance stays non-negative; it appends one row of +amount or -amount and moves that account and the total by exactly that |
| Writes.SimpleTransactionConsistent | bot.py:362-375 | a deposit, or a donation the balance covers, always commits; it keeps the schema, the ledger invariants and the loans, and moves the balance by the signed amount |
| Writes.TransferRows | bot.py:448-449 | the two transfer rows cancel out |
| Writes.TransferUpdatesMove | bot.py:442-445 | the two updates by user id take the amount from the sender's account and give it to the recipient's |
| Writes.TransferInsertsAppend | bot.py:448-449 | rows keyed by ids that are not account ids are only appended |
| Writes.TransferSteps | bot.py:441-449 | when neither Telegram id is an account id, the transfer as written is the two updates followed by two appended rows |
| Writes.TransferEffect | bot.py:441-451 | then the transfer commits, moves exactly the amount, changes no other account, appends the two rows and keeps the total |
| Writes.TransferWritesConsistent | bot.py:441-451 | a committed transfer as written keeps every constraint and invariant, the users and the loans |
| Writes.TransferCommitConsistent | bot.py:429-451 | after the transfer's commit or rollback every constraint and invariant still holds |
| Writes.TransferAppliedTwice | bot.py:442-449 | as written, a transfer of 30 from account 1 (balance 100) leaves 40 and 60; a covered transfer of 60 is refused |
| Writes.TransferFixedSteps | bot.py:447-449 | the corrected transfer is refused exactly when the sender's balance is below the amount; otherwise it debits the sender, then credits the recipient, and appends one row for each |
| Writes.MoveBalances | bot.py:442-445 | a debit of one account followed by a credit of another (or the same) account moves each balance by its own share and keeps the bank's total |
| Writes.TransferFixedMovesOnce | bot.py:447-449 | the corrected transfer commits exactly when the sender covers the amount; each account's balance changes by the amount it receives minus the amount it sends, which is nothing for a transfer to oneself; no account is added or removed; the two rows are recorded against the accounts they moved; the total is kept |
| Writes.TransferFixedCommitConsistent | bot.py:447-451 | the corrected transfer, committed or rolled back, keeps every constraint, invariant and loan |
| Dialogue.TakeWord | bot.py:179 | the command word is the text's longest whitespace-free prefix |
| Dialogue.Route | bot.py:53-416 | the loan button always reaches initiate_loan; initiate_transaction only ever sees the donation button; each state-filtered handler runs only in its state; a loan state sends every other text to its own handler; in the name state only /start, /register, the Register button and the loan button escape process_name |
| Dialogue.Least | bot.py:403-404 | the first row of the scan is the least id holding the phone |
| Dialogue.ClearKeepsSessions | bot.py:151 | clearing one user's session keeps every session's loan checks true |
| Dialogue.ConfirmedLoanRecorded | bot.py:112-151 | a confirmed loan clears the session, appends the loan with the collected amount, duration and payment, and adds one 'Loan' row keyed by the Telegram id |
| Dialogue.LoanKeepsSessions | bot.py:139-151 | a user's new loan keeps every other session's loan checks true and clears that user's session |
| Dialogue.Bot.constructor | bot.py:19 | the bot starts with no sessions and an empty, valid database |
| Dialogue.Bot.InitiateLoan | bot.py:53-56 | from any state, moves to the loan amount state and keeps the scratch data; other sessions are untouched |
| Dialogue.Bot.ProcessLoanAmount | bot.py:58-86 | advances, recording the amount, only if it is positive, at most 45000, and keeps the user's outstanding loans at most 50000; otherwise nothing changes |
| Dialogue.Bot.ProcessLoanDuration | bot.py:88-110 | advances only on "3", "6" or "12", storing the duration and the quote; otherwise nothing changes |
| Dialogue.Bot.ConfirmLoan | bot.py:112-151 | the session is always cleared; anything but "yes" writes nothing; "yes" commits the loan writes as written, without checking that the user is registered, appending the scratch loan and one 'Loan' row keyed by the Telegram id; the ledger invariants still hold |
| Dialogue.Bot.RegisterUser | bot.py:197-216 | a user not yet in users starts registration with their own id; a registered one changes nothing |
| Dialogue.Bot.ProcessName | bot.py:218-227 | an invalid name changes nothing; a valid one is stored and the email is asked |
| Dialogue.Bot.ProcessEmail | bot.py:229-238 | an invalid email changes nothing; a valid one is stored and the phone is asked |
| Dialogue.Bot.ProcessPhone | bot.py:240-267 | an invalid phone changes nothing; a valid one commits the registration writes or nothing, and clears the session |
| Dialogue.Bot.InitiateTransaction | bot.py:331-337 | stores "loan" for the loan button and "donation" otherwise, and asks for the amount |
| Dialogue.Bot.ProcessTransactionAmount | bot.py:339-383 | an invalid amount, an over-limit "loan", a missing account or an uncovered donation change nothing and keep the state; otherwise one row on the user's account moves its balance by the signed amount and the session is cleared |
| Dialogue.Bot.InitiateDeposit | bot.py:385-390 | stores "deposit" and asks for the amount |
| Dialogue.Bot.InitiateTransfer | bot.py:392-396 | moves to the recipient phone state |
| Dialogue.Bot.GetTransferRecipient | bot.py:398-414 | an unknown phone clears the session; otherwise the first user with that phone, and their name, become the recipient |
| Dialogue.Bot.ProcessTransferAmount | bot.py:416-464 | an invalid or uncovered amount, or a sender without an account, changes nothing and keeps the state; otherwise the transfer writes as written commit or are rolled back, the recipient's account is never checked, and the session is cleared either way |
| Dialogue.Bot.HandleLoan | bot.py:53-151 | for the loan button, the amount, the duration and the confirmation, the user's new session (with the amount, duration and quote stored) and the new tables are exactly those of the routed handler; only the confirmation writes |
| Dialogue.Bot.HandleRegistration | bot.py:197-267 | for the register command or button, the name, the e-mail and the phone, the user's new session (with the id, name and e-mail stored) and the new tables are exactly those of the routed handler; only the phone step writes |
| Dialogue.Bot.HandleTransaction | bot.py:331-390 | for the donation and deposit buttons and the amount, the user's new session and the new tables (the signed row on the user's account) are exactly those of the routed handler; only the amount step writes |
| Dialogue.Bot.HandleTransfer | bot.py:392-464 | for the transfer button, the recipient's phone and the amount, the user's new session (with the first phone holder and their name as recipient) and the new tables (the transfer as written) are exactly those of the routed handler; only the amount step writes |
| Dialogue.Bot.Handle | bot.py:468-471 | one message goes to the handler the router picks, and the user's whole new session and the new tables are the ones that handler leaves, route by route (`Dialogue.Outcome`); /start, the info request and unrouted texts change nothing; the invariant holds afterwards; other users' sessions are untouched; only the four committing handlers change the ledger; "loan" never becomes a transaction type |

## Left out

- Dialogue.Bot.ConfirmLoan: the loan's effect on balances is stated through `Writes.LoanWrites` and its lemmas, not restated in the method.
- Writes.TransferEffect: it holds only when no account's id equals either Telegram id, and only when the recipient owns an account. Registration writes the user and the account together (`Writes.RegistrationEffect`), but `create_user` alone adds a user without one, and the lemma says nothing about a transfer to such a user. The id collision is the finding below.
- Dialogue.Bot.ProcessTransferAmount: the balances after a transfer are stated through `Writes.TransferWrites`; `Writes.TransferEffect` gives them only in the case above.
- Validators.IsValidPhone: `str.isdigit()` also accepts non-ASCII digits (superscripts, other scripts). The model accepts only '0' to '9'.
- Validators.IsWordChar: the regular expression's `\w` also matches non-ASCII letters and digits in Python. The model uses the ASCII class.
- Validators.Lower: `str.lower()` also lower-cases non-ASCII letters. Only ASCII letters are mapped, which decides the same "yes".
- Validators.IsPositiveAmount: `float()` is the parameter `Bot.parseFloat`. Infinity and NaN cannot be expressed in `real`, and binary floating-point rounding is not modelled. The predicate (bot.py:163-167) has no row of its own: the rows for Dialogue.Bot.ProcessLoanAmount, Dialogue.Bot.ProcessTransactionAmount and Dialogue.Bot.ProcessTransferAmount state what it decides, through `LoanAmountAccepted`, `TransactionProceeds` and `TransferProceeds`.
- LoanQuote.QuotePositive: the quote is computed over exact reals. In IEEE doubles a tiny accepted amount such as `5e-324` gives a total that rounds back to `5e-324` and a monthly payment (bot.py:101-102) that underflows to 0.0. On "yes" the loans insert then fails `CHECK (monthlyPayment > 0)` (database.py:50), and `confirm_loan` rolls the loan back and clears the session. The model commits that loan instead.
- Dialogue.Bot.Handle: sessions are modelled per user (`Bot.sessions` is keyed by the Telegram user id). The dispatcher at bot.py:19 uses aiogram's default storage key, which is the chat and the user, so one user writing from two chats has two sessions. The cap is checked only at the amount step (bot.py:75-78), and `confirm_loan` does not check it again. Two such conversations can each accept 45000 and both confirm, which leaves 90000 outstanding. The proved 50000 cap (`Writes.LoansWithinCap`, kept by `Dialogue.LoanKeepsSessions`) therefore holds only when each user talks to the bot from one chat.
- Dialogue.IsCommand: the `/start@botname` form and other command prefixes are not modelled.
- Replies, reply keyboards, the `/start` menu (`start_bot`) and `get_user_info`: they only send messages, so `Handle` routes to them and changes nothing.
- The notification at bot.py:457 is not modelled, and neither is what happens when it raises after the commit (the session is then not cleared).
- Crashes that are not `sqlite3.Error`: `fetchone()[0]` on a user without an account (bot.py:360, 435) is modelled as the handler stopping with nothing changed. It is not a precondition.
- Only `IntegrityError` is modelled. Other SQLite failures (a locked or unreadable file) are not.
- Transaction and loan row ids, `transactionDate` and `CURRENT_TIMESTAMP` are not modelled.
- Async execution, several connections at once, and messages without text are not modelled. Each message is handled to completion before the next.
- The duplicate handlers at bot.py:275-308 are modelled once, because the first copies always match first.
- The state `Transaction.waiting_for_transaction_type` is declared but never entered. It is kept as `AwaitingTransactionType`, with no handler.
- Loan repayment: the '📅 Pay Monthly Loan' button has no handler, so remaining balances never fall (`Writes.LoansAtPrincipal`).
- `initialize_database` is modelled only as the empty tables it creates. Foreign keys are declared but SQLite does not enforce them by default, and the model does not either.

## Findings

The bot's handlers run the statements as written. Each corrected member is proved on its own and is what the code evidently meant.

| source | as written | input that shows it | evidently intended | confidence | as-written member | corrected member |
|---|---|---|---|---|---|---|
| bot.py:130-136 | confirm_loan credits the user's accounts with an UPDATE by userId, then inserts the 'Loan' row with accountId set to the Telegram id. The trigger then credits the account whose id equals that number as well. | user 1 owns account 1 with balance 0; a loan of 100 is confirmed; the balance becomes 200 | one 'Loan' row keyed by the user's account id, whose trigger credits it once by the principal | not executed | Writes.LoanCreditedTwice | Writes.LoanFixedCreditsOnce |
| bot.py:442-449 | process_transfer_amount moves the money with two UPDATEs by userId, then inserts the two rows keyed by the Telegram ids. The trigger moves the money a second time between the accounts with those ids. | user 1 (account 1, balance 100) sends 30 to user 2 (account 2, balance 0): the balances become 40 and 60; sending 60 instead is refused by CHECK (balance >= 0) and rolled back | one row on each account, keyed by the account ids, whose triggers move the amount once | not executed | Writes.TransferAppliedTwice | Writes.TransferFixedMovesOnce |
