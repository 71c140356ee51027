# Banking ledger domain model in Dafny

This project models the account and ledger core of a small banking system.
The system ships twice, as a console application (`BankApp.java`) and as an
HTTP server (`BankServer.java`). Each copy carries its own version of the same
domain classes:

- a **Bank** mapping usernames to users;
- a **User** owning a list of accounts and a counter, seeded at 1000, that
  numbers new accounts;
- an **Account** base, with an append-only transaction log;
- five account kinds:
  - **SavingsAccount**: deposit and withdraw against a balance;
  - **FDAccount**: a fixed deposit with a simple-interest maturity projection;
  - **LoanAccount**: payments capped at what is outstanding;
  - **DebitCard**: charges and payments go through a shared, linked savings account;
  - **CreditCard**: limit-checked charges, capped payments and a minimum due.

Layout:

- `ledger.dfy`, module `Ledger`:
  - the `Transaction` value (timestamp, description, signed amount);
  - `Sum`, the net of a log;
  - the stable timestamp sort applied to a log before it is listed, proved
    sorted, a permutation and stable.
- `account_numbers.dfy`, module `AccountNumbers`:
  - ASCII upper-casing;
  - the decimal rendering of the counter, proved injective;
  - `Compose`, which gives prefix-dash-counter, and the set of numbers a user
    has issued.
- `bank_app.dfy`, module `BankApp`: the console copy, with registration and the
  fixed-deposit and loan opening steps of its menus.
- `bank_server.dfy`, module `BankServer`: the server copy, with the registration
  critical section.
- `copies.dfy`, module `Copies`: shows that the two prefix expressions agree.

Modelling choices:

- **Classes.** Each Java class whose fields change is a Dafny class. Java
  inheritance becomes composition: every variant object holds its `Account`
  part in the constant field `base`. A user's account list holds `AnyAccount`
  values, which tag the five variants.
- **Money.** Amounts are `real`.
- **Clock.** The clock reading that stamps a transaction is a `now: nat`
  parameter.
- **State contracts.** Every state-changing method states its whole new state:
  - whether it succeeds;
  - the new balance or outstanding;
  - the log, which is the old log plus exactly one entry, or unchanged.
- **Preserved invariants.** Beside the state contracts, each method states the
  invariants it preserves (a debit card's charge and payment also state that
  the linked savings account stays `Balanced()`):
  - `Balanced()`: the log's amounts sum to the balance, outstanding or
    principal;
  - `InRange()` for a loan: 0 ≤ outstanding ≤ principal;
  - `WithinLimit()` for a credit card: 0 ≤ outstanding ≤ limit.

  Sorting a log before it is listed keeps its sum, so every `Balanced()`
  survives a listing.
- **Object invariants of users and banks.** A user's counter has the type
  `Counter`, a natural of at least 1000, so no precondition is needed to
  generate a number. `User.Valid()` says that every debit card among the
  user's accounts keeps a log separate from its linked account's log, which
  is what `DebitCard.Charge` and `Pay` require. `Bank.Valid()` says that
  every user is filed under its own username (`Bank.Filed()`) and is itself
  valid. A user looked up in a valid bank, and a card looked up in a valid
  user, therefore meet the preconditions of the operations
  (`BankApp.Session`, `BankServer.Session`).

How the two copies differ, each modelled as written:

- Log descriptions: BankApp uses "Deposit", "Withdraw", "Loan payment", …;
  BankServer uses "deposit", "withdraw", "loan_payment", ….
- `DebitCard.charge`: BankServer has no `amt <= 0` guard of its own
  (BankServer.java:438). `BankServer.DebitCard.Charge` still has the same
  success condition and the same effects as the BankApp one, up to the log
  descriptions, because `withdraw` rejects such amounts
  (BankServer.java:392).
- `LoanAccount.pay`: BankServer passes the amount through `amountOrZero`
  (BankServer.java:421-422). That call is only reached with `amt > 0`, where it
  returns `amt`, so the payment is the same.
- Account-number prefix: the two files write it differently.
  `Copies.PrefixesAgree` proves the two expressions equal for every username.
- Opening entries: the BankApp menus log a second opening entry after the
  constructor has logged one (see Findings). The BankServer handlers do not.
- Registration: BankApp checks and inserts without a lock; BankServer does so
  under `synchronized(bank)`. Both are modelled as one sequential `Register`
  step.

## Model

| member | source | states |
|---|---|---|
| `BankApp.Account.constructor` | BankApp.java:458-461 | a new account has the given number and holder and an empty log |
| `BankApp.Account.AddTransaction` | BankApp.java:466-468 | the log gains exactly one entry at its end; earlier entries are unchanged; its sum grows by the amount |
| `BankApp.Account.SortTransactions` | BankApp.java:477-481 | afterwards the log is ordered by timestamp, is a permutation of the old log, keeps the order of entries that share a timestamp, and has the same sum |
| `Ledger.SortByTimeSorted` | BankApp.java:477-481 | the timestamp sort yields a non-decreasing log with the same multiset of entries |
| `Ledger.SortByTimeStable` | BankApp.java:477-481 | the sort is stable: for every timestamp, the entries carrying it keep their log order |
| `Ledger.SortByTimeOfSorted` | BankApp.java:477-481 | a log already in timestamp order is left unchanged |
| `Ledger.InsertSorted` | BankApp.java:477-481 | inserting one entry into a sorted log keeps it sorted |
| `Ledger.InsertPermutes` | BankApp.java:477-481 | insertion adds exactly the one entry to the log's multiset |
| `Ledger.InsertStable` | BankApp.java:477-481 | insertion places the entry after every entry with the same timestamp |
| `Ledger.SumAppend` | BankApp.java:466-468 | appending an entry adds its amount to the log's sum |
| `Ledger.SumInsert` | BankApp.java:477-481 | inserting an entry into a log adds its amount to the log's sum |
| `Ledger.SumSort` | BankApp.java:477-481 | sorting a log by timestamp leaves its sum unchanged |
| `BankApp.SavingsAccount.constructor` | BankApp.java:515-519 | balance is the initial amount; the log is one "Account opened" entry of that amount, so the log is balanced |
| `BankApp.SavingsAccount.Deposit` | BankApp.java:523-527 | for amt ≤ 0 nothing changes; otherwise balance rises by amt and one "Deposit" +amt entry is appended; balance never falls; the balanced log is kept |
| `BankApp.SavingsAccount.Withdraw` | BankApp.java:529-535 | succeeds iff 0 < amt ≤ balance; on success balance falls by amt and one "Withdraw" −amt entry is appended; on failure neither balance nor log changes; balance ≥ 0 is kept |
| `BankApp.FDAccount.constructor` | BankApp.java:546-552 | stores principal, term and rate; the log is one "FD Opened" entry equal to the principal |
| `BankApp.FDAccount.CalculateMaturityAmount` | BankApp.java:559-562 | the interest is principal·rate·months/1200; the result is ≥ principal when no input is negative, and equals the principal for zero rate or zero term |
| `BankApp.DemoMaturity` | BankApp.java:366 | the demonstration deposit (10000, 12 months, 5.5%) matures at 10550 |
| `BankApp.LoanAccount.constructor` | BankApp.java:574-581 | outstanding starts at the principal; the log is one "Loan issued" entry of the principal; 0 ≤ outstanding ≤ principal when principal ≥ 0 |
| `BankApp.LoanAccount.Pay` | BankApp.java:589-594 | for amt ≤ 0 nothing changes; otherwise outstanding falls by min(amt, outstanding) and one −payment entry is appended; outstanding never rises or goes negative; an overpayment leaves exactly 0; the range [0, principal] and the balanced log are kept |
| `BankApp.DebitCard.constructor` | BankApp.java:616-620 | the card links the given savings account, has its own log with one "Debit card issued" 0 entry, and that log is not the linked account's |
| `BankApp.DebitCard.Charge` | BankApp.java:626-631 | succeeds exactly when the linked account's Withdraw would (0 < amt ≤ linked balance); on success the linked balance falls by amt and both logs gain one entry; on failure neither object changes; the linked account stays Balanced |
| `BankApp.DebitCard.Pay` | BankApp.java:634-639 | for amt ≤ 0 nothing changes; otherwise amt is deposited into the linked account and both logs gain one entry; the linked account stays Balanced |
| `BankApp.CreditCard.constructor` | BankApp.java:649-654 | outstanding starts at 0 under the given limit; the log is one "Credit card issued" 0 entry |
| `BankApp.CreditCard.Charge` | BankApp.java:660-666 | succeeds iff amt > 0 and outstanding + amt ≤ limit; on success outstanding rises by amt and one entry is appended; on failure nothing changes; a success never passes the limit |
| `BankApp.CreditCard.Pay` | BankApp.java:669-674 | for amt ≤ 0 nothing changes; otherwise outstanding falls by min(amt, outstanding), never below 0; an overpayment leaves exactly 0 |
| `BankApp.CreditCard.MinDue` | BankApp.java:677-679 | the result is the larger of 10 and a tenth of what is outstanding, so it is always ≥ 10 |
| `BankApp.AccountNoPrefix` | BankApp.java:421 | the prefix is the first min(3, length) characters of the username, upper-cased |
| `AccountNumbers.Upper` | BankApp.java:421 | upper-casing keeps the length and maps each character through the ASCII upper-case map |
| `AccountNumbers.DecimalString` | BankApp.java:421 | the counter is rendered as a non-empty string of decimal digits, at least two of them from 10 up, ending in the last digit |
| `AccountNumbers.DecimalStringInjective` | BankApp.java:421 | distinct counters render differently |
| `AccountNumbers.Compose` | BankApp.java:421 | an account number is the prefix, a dash, then the counter's digits |
| `AccountNumbers.ComposeInjective` | BankApp.java:419-422 | under one prefix, distinct counters give distinct account numbers |
| `AccountNumbers.IssuedNext` | BankApp.java:419-422 | the next counter value yields a number not issued before; the issued set grows by exactly that number |
| `BankApp.User.constructor` | BankApp.java:406-413 | a new user has no accounts, its counter at 1000, and is valid |
| `BankApp.User.GenerateAccountNo` | BankApp.java:419-422 | the counter rises by exactly 1; the result is prefix-dash-counter and is not among the numbers this user issued before, so one user's numbers never repeat; the accounts, and so the user's validity, are unchanged |
| `BankApp.User.AddAccount` | BankApp.java:424-426 | the account is appended to the user's list and the counter is unchanged; the user stays valid iff it was and the account is not a debit card sharing its linked account's log |
| `BankApp.User.GetAccountByNo` | BankApp.java:444-447 | returns the first account whose number matches, which is one of the user's accounts; returns None iff no account matches |
| `BankApp.Bank.constructor` | BankApp.java:382-384 | a new bank has no users |
| `BankApp.Bank.AddUser` | BankApp.java:388 | the user is filed under its own username, replacing any earlier entry; every user stays filed under its own name, and the bank stays valid iff the added user is valid |
| `BankApp.Bank.GetUser` | BankApp.java:390 | null iff the username is unknown; otherwise the user stored under that key, whose username is the key |
| `BankApp.Bank.Authenticate` | BankApp.java:392-396 | returns the filed user iff its stored password equals the one given, else null |
| `BankApp.Register` | BankApp.java:58-70 | a valid bank stays valid; an existing username is rejected with no change to the bank; otherwise exactly that username is added, and GetUser then returns a new user with counter 1001 and one savings account numbered prefix-1001, with balance 0 and one "Account opened" 0 entry |
| `BankApp.OpenFixedDepositAsWritten` | BankApp.java:210-220 | the menu as written: the user's counter advances by one and the new deposit, numbered prefix-counter and holding the given principal, term and rate, is appended to the user's accounts; its log holds two opening entries summing to twice the principal |
| `BankApp.OpenFixedDeposit` | BankApp.java:218-219 | opening with the constructor's single entry: the same counter, number, terms and appended account as the menu, and a log that sums to the principal |
| `BankApp.ApplyLoanAsWritten` | BankApp.java:228-238 | the menu as written: the user's counter advances by one and the new loan, numbered prefix-counter and holding the given principal, rate and term, is appended to the user's accounts; its log holds two opening entries summing to twice the principal, while outstanding is the principal |
| `BankApp.ApplyLoan` | BankApp.java:236-237 | opening with the constructor's single entry: the same counter, number, terms and appended account as the menu, outstanding equal to the principal and in range for a non-negative principal, and a log that sums to what is outstanding |
| `BankServer.Account.constructor` | BankServer.java:366-369 | a new account has the given number and holder and an empty log |
| `BankServer.Account.AddTransaction` | BankServer.java:372 | the log gains exactly one entry at its end; its sum grows by the amount |
| `BankServer.SavingsAccount.constructor` | BankServer.java:387-389 | balance is the initial amount; the log is one "opened" entry of that amount |
| `BankServer.SavingsAccount.Deposit` | BankServer.java:390 | for amt ≤ 0 nothing changes; otherwise balance rises by amt and one "deposit" entry is appended |
| `BankServer.SavingsAccount.Withdraw` | BankServer.java:391-394 | fails with no balance or log change iff amt ≤ 0 or amt > balance; otherwise balance falls by amt and one −amt entry is appended; balance ≥ 0 is kept |
| `BankServer.FDAccount.constructor` | BankServer.java:403-405 | the log is exactly one "fd_opened" entry equal to the principal |
| `BankServer.FDAccount.CalculateMaturityAmount` | BankServer.java:406-409 | the same simple-interest projection: ≥ principal for non-negative inputs, equal to it for zero rate or term |
| `BankServer.AmountOrZero` | BankServer.java:422 | never negative, and equal to the amount whenever the amount is positive |
| `BankServer.LoanAccount.constructor` | BankServer.java:418-420 | outstanding starts at the principal; the log is one "loan_granted" entry of the principal |
| `BankServer.LoanAccount.Pay` | BankServer.java:421 | payment is min(amountOrZero(amt), outstanding), reached only with amt > 0, so outstanding falls by min(amt, outstanding); it never rises; an overpayment leaves exactly 0 |
| `BankServer.DebitCard.constructor` | BankServer.java:437 | the card links the given savings account and has its own log with one "debit_issued" entry |
| `BankServer.DebitCard.Charge` | BankServer.java:438 | though it has no guard of its own, it succeeds iff 0 < amt ≤ linked balance; a failure changes neither object; a success moves the linked balance and appends to both logs; the linked account stays Balanced |
| `BankServer.DebitCard.Pay` | BankServer.java:439 | for amt ≤ 0 nothing changes; otherwise amt is deposited into the linked account and both logs gain one entry; the linked account stays Balanced |
| `BankServer.CreditCard.constructor` | BankServer.java:444 | outstanding starts at 0; the log is one "credit_issued" entry |
| `BankServer.CreditCard.Charge` | BankServer.java:445-449 | rejects amt ≤ 0 and any charge with outstanding + amt > limit, with no change; a success keeps outstanding ≤ limit |
| `BankServer.CreditCard.Pay` | BankServer.java:450 | capped at what is outstanding, never driving it negative; a no-op for amt ≤ 0 |
| `BankServer.CreditCard.MinDue` | BankServer.java:452 | the larger of 10 and a tenth of what is outstanding |
| `BankServer.AccountNoPrefix` | BankServer.java:357 | the upper-cased username if it is shorter than 3 characters, else its first 3 characters upper-cased |
| `Copies.PrefixesAgree` | BankServer.java:355-359 | the server's prefix expression equals the console application's for every username |
| `BankServer.User.constructor` | BankServer.java:341-345 | a new user has no accounts, its counter at 1000, and is valid |
| `BankServer.User.AddAccount` | BankServer.java:349 | the account is appended to the user's list and the counter is unchanged; the user stays valid iff it was and the account is not a debit card sharing its linked account's log |
| `BankServer.User.GetAccountByNo` | BankServer.java:351-354 | returns the first account whose number matches, which is one of the user's accounts; returns None iff no account matches |
| `BankServer.User.GenerateAccountNo` | BankServer.java:355-359 | the counter rises by exactly 1; the result is prefix-dash-counter and not among the numbers issued before; the accounts, and so the user's validity, are unchanged |
| `BankServer.Bank.constructor` | BankServer.java:329 | a new bank has no users |
| `BankServer.Bank.AddUser` | BankServer.java:330 | the user is filed under its own username, replacing any earlier entry; every user stays filed under its own name, and the bank stays valid iff the added user is valid |
| `BankServer.Bank.GetUser` | BankServer.java:331 | null iff the username is unknown; otherwise the user stored under that key, whose username is the key |
| `BankServer.Bank.Authenticate` | BankServer.java:332-336 | returns the filed user iff its stored password equals the one given, else null |
| `BankServer.Register` | BankServer.java:109-120 | a valid bank stays valid; an existing username is rejected with no change to the bank; otherwise GetUser then returns a new user holding exactly one savings account with balance 0 and one "opened" entry |

## Left out

- Console menus and input helpers (BankApp.java:29-355): stdin/stdout loops. The exception is the opening steps of the deposit and loan menus, modelled for the finding below. `BankApp.Scenarios` replays the end-to-end scenarios, and the demonstration fixed deposit, as a client of the contracts; the rest of the demonstration data is not replayed. `BankApp.Session`, `BankApp.Listing` and `BankServer.Session` are further clients: a login followed by operations on looked-up users and cards, and a listing followed by more transactions.
- The HTTP server, request handlers, form parsing, `sendJson` and every `toJson`: network I/O and text formatting. In the registration handler, the required-field check and the default of `name` to the username belong to request parsing and are not modelled.
- Printing: `printTransactions` is modelled only by the sort it performs. `listAccountsBrief`, the getters and `getBankName` print or read fields and are not modelled.
- `synchronized` and concurrent callers: every operation is one atomic sequential step, and interleavings are not modelled.
- IEEE `double`: amounts are exact reals. Maturity and minimum due are not claimed to agree bit for bit with Java. NaN and infinities are not modelled.
- The clock: timestamps are abstract `now` parameters. A debit-card operation stamps both of its entries with the same `now`, where Java reads the clock twice.
- `Card`, the abstract class, declares `charge` and `pay` without bodies. Dispatch is Java's virtual call; the model calls each card kind's method directly.
- Java `null` for a username or account number, and `HashMap.get(null)`, are not modelled.
- Neither program enforces account-number uniqueness across users, and the model does not claim it. Two users whose names share a prefix get the same numbers.
- BankApp.User.GenerateAccountNo: the counter is an unbounded natural; the 32-bit `int` wrap-around after 2^31 − 1 is not modelled.
- BankServer.User.GenerateAccountNo: same as above for its `counter`.
- AccountNumbers.Upper: only ASCII letters are upper-cased; Java's locale-dependent Unicode `toUpperCase` is not modelled.

## Findings

| source | as written | input that shows it | evidently intended | confidence | as-written member | corrected member |
|---|---|---|---|---|---|---|
| BankApp.java:218-220 | `openFDMenu` logs "Opened FD" with the principal after the `FDAccount` constructor already logged "FD Opened" with it | principal 10000: the log holds +10000 twice and sums to 20000 | one opening entry, as the constructor (BankApp.java:551) and the server's FD handler (BankServer.java:210) record; the log then sums to the principal | medium, not executed | `BankApp.OpenFixedDepositAsWritten` | `BankApp.OpenFixedDeposit` |
| BankApp.java:236-238 | `applyLoanMenu` logs "Loan granted" with the principal after the `LoanAccount` constructor already logged "Loan issued" with it | principal 20000: outstanding is 20000 but the log sums to 40000 | one opening entry, as the constructor (BankApp.java:580) and the server's loan handler (BankServer.java:228) record; the log then sums to what is outstanding | medium, not executed | `BankApp.ApplyLoanAsWritten` | `BankApp.ApplyLoan` |
