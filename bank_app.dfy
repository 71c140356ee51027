/**
 * The domain model of the console banking application: a bank of users,
 * each user owning accounts of five kinds, every account keeping an
 * append-only transaction log.
 *
 * Java's class hierarchy (Account, with SavingsAccount, FDAccount,
 * LoanAccount and the abstract Card with DebitCard and CreditCard below it)
 * is modelled by composition: every variant object holds its Account part in
 * the constant field `base`, and a user's account list holds `AnyAccount`
 * values that tag the variant.
 */
module BankApp {
  import opened Ledger
  import opened AccountNumbers

  // ---------------------------------------------------------------------------
  // Account: identity and transaction log
  // ---------------------------------------------------------------------------

  class Account {
    const accountNo: string
    const holderName: string
    var transactions: seq<Transaction>

    constructor (accountNo: string, holderName: string)
      ensures this.accountNo == accountNo && this.holderName == holderName
      ensures transactions == []
    {
      this.accountNo := accountNo;
      this.holderName := holderName;
      transactions := [];
    }

    /** Appends one entry; earlier entries are never touched. */
    method AddTransaction(desc: string, amount: real, now: nat)
      modifies this
      ensures transactions == old(transactions) + [Transaction(now, desc, amount)]
      ensures Sum(transactions) == Sum(old(transactions)) + amount
    {
      SumAppend(transactions, Transaction(now, desc, amount));
      transactions := transactions + [Transaction(now, desc, amount)];
    }

    /** The in-place sort that precedes listing the log: afterwards the log
        is ordered by timestamp, holds the same entries, and entries sharing
        a timestamp are in their original order. The sum of the amounts is
        unchanged, so every `Balanced()` invariant survives a listing. */
    method SortTransactions()
      modifies this
      ensures transactions == SortByTime(old(transactions))
      ensures SortedByTime(transactions)
      ensures multiset(transactions) == multiset(old(transactions))
      ensures forall k: nat :: At(transactions, k) == At(old(transactions), k)
      ensures Sum(transactions) == Sum(old(transactions))
    {
      SortByTimeSorted(transactions);
      SumSort(transactions);
      forall k: nat ensures At(SortByTime(transactions), k) == At(transactions, k) {
        SortByTimeStable(transactions, k);
      }
      transactions := SortByTime(transactions);
    }
  }

  // ---------------------------------------------------------------------------
  // SavingsAccount
  // ---------------------------------------------------------------------------

  class SavingsAccount {
    const base: Account
    var balance: real

    /** The log accounts for the balance: its amounts sum to it. */
    ghost predicate Balanced()
      reads this, base
    {
      balance == Sum(base.transactions)
    }

    constructor (accountNo: string, holderName: string, initial: real, now: nat)
      ensures fresh(base) && base.accountNo == accountNo && base.holderName == holderName
      ensures balance == initial
      ensures base.transactions == [Transaction(now, "Account opened", initial)]
      ensures Balanced()
    {
      base := new Account(accountNo, holderName);
      balance := initial;
      new;
      base.AddTransaction("Account opened", initial, now);
    }

    /** A non-positive amount is ignored; otherwise the balance grows by
        `amt` and one "Deposit" entry of `+amt` is logged. */
    method Deposit(amt: real, now: nat)
      modifies this, base
      ensures amt <= 0.0 ==> balance == old(balance) && base.transactions == old(base.transactions)
      ensures amt > 0.0 ==>
        && balance == old(balance) + amt
        && base.transactions == old(base.transactions) + [Transaction(now, "Deposit", amt)]
      ensures balance >= old(balance)
      ensures old(Balanced()) ==> Balanced()
    {
      if amt <= 0.0 { return; }
      balance := balance + amt;
      base.AddTransaction("Deposit", amt, now);
    }

    /** Succeeds exactly when `0 < amt <= balance`; then the balance drops by
        `amt` and one "Withdraw" entry of `-amt` is logged, otherwise nothing
        changes. A non-negative balance therefore stays non-negative. */
    method Withdraw(amt: real, now: nat) returns (ok: bool)
      modifies this, base
      ensures ok <==> 0.0 < amt <= old(balance)
      ensures ok ==>
        && balance == old(balance) - amt
        && base.transactions == old(base.transactions) + [Transaction(now, "Withdraw", -amt)]
      ensures !ok ==> balance == old(balance) && base.transactions == old(base.transactions)
      ensures old(balance) >= 0.0 ==> balance >= 0.0
      ensures old(Balanced()) ==> Balanced()
    {
      if amt <= 0.0 { return false; }
      if amt > balance { return false; }
      balance := balance - amt;
      base.AddTransaction("Withdraw", -amt, now);
      return true;
    }
  }

  // ---------------------------------------------------------------------------
  // FDAccount (fixed deposit)
  // ---------------------------------------------------------------------------

  class FDAccount {
    const base: Account
    const principal: real
    const termMonths: int
    const interestRate: real  // annual, in percent

    /** The log accounts for the deposit: its amounts sum to the principal. */
    ghost predicate Balanced()
      reads base
    {
      principal == Sum(base.transactions)
    }

    constructor (accountNo: string, holderName: string, principal: real, termMonths: int, rate: real, now: nat)
      ensures fresh(base) && base.accountNo == accountNo && base.holderName == holderName
      ensures this.principal == principal && this.termMonths == termMonths && interestRate == rate
      ensures base.transactions == [Transaction(now, "FD Opened", principal)]
      ensures Balanced()
    {
      base := new Account(accountNo, holderName);
      this.principal := principal;
      this.termMonths := termMonths;
      interestRate := rate;
      new;
      base.AddTransaction("FD Opened", principal, now);
    }

    /** Simple (not compounded) interest over the term: the principal plus
        principal * rate% * years. It depends on the constant fields only, so
        repeated calls agree; with no negative input it is at least the
        principal, and it is exactly the principal when the rate or the term
        is zero. */
    function CalculateMaturityAmount(): (r: real)
      ensures principal >= 0.0 && interestRate >= 0.0 && termMonths >= 0 ==> r >= principal
      ensures interestRate == 0.0 || termMonths == 0 ==> r == principal
      ensures r - principal == principal * interestRate * (termMonths as real) / 1200.0
    {
      var years := termMonths as real / 12.0;
      principal + principal * (interestRate / 100.0) * years
    }
  }

  /** The demonstration deposit (10000 for 12 months at 5.5%) matures at 10550. */
  lemma DemoMaturity(fd: FDAccount)
    requires fd.principal == 10000.0 && fd.termMonths == 12 && fd.interestRate == 5.5
    ensures fd.CalculateMaturityAmount() == 10550.0
  {
  }

  // ---------------------------------------------------------------------------
  // LoanAccount
  // ---------------------------------------------------------------------------

  class LoanAccount {
    const base: Account
    const principal: real
    var outstanding: real
    const interestRate: real  // annual, in percent; not used by payments
    const termMonths: int     // not used by payments

    /** 0 <= outstanding <= principal. */
    ghost predicate InRange()
      reads this
    {
      0.0 <= outstanding <= principal
    }

    /** The log accounts for the debt: its amounts sum to what is outstanding. */
    ghost predicate Balanced()
      reads this, base
    {
      outstanding == Sum(base.transactions)
    }

    constructor (accountNo: string, holderName: string, principal: real, rate: real, months: int, now: nat)
      ensures fresh(base) && base.accountNo == accountNo && base.holderName == holderName
      ensures this.principal == principal && outstanding == principal
      ensures interestRate == rate && termMonths == months
      ensures base.transactions == [Transaction(now, "Loan issued", principal)]
      ensures principal >= 0.0 ==> InRange()
      ensures Balanced()
    {
      base := new Account(accountNo, holderName);
      this.principal := principal;
      outstanding := principal;
      interestRate := rate;
      termMonths := months;
      new;
      base.AddTransaction("Loan issued", principal, now);
    }

    /** A non-positive amount is ignored. Otherwise the payment is
        min(amt, outstanding): outstanding drops by it and one entry of
        `-payment` is logged; an overpayment is capped, leaving exactly 0. */
    method Pay(amt: real, now: nat)
      modifies this, base
      ensures amt <= 0.0 ==> outstanding == old(outstanding) && base.transactions == old(base.transactions)
      ensures amt > 0.0 ==>
        var payment := if amt <= old(outstanding) then amt else old(outstanding);
        outstanding == old(outstanding) - payment
        && base.transactions == old(base.transactions) + [Transaction(now, "Loan payment", -payment)]
      ensures old(outstanding) >= 0.0 ==> 0.0 <= outstanding <= old(outstanding)
      ensures amt > 0.0 && amt >= old(outstanding) ==> outstanding == 0.0
      ensures old(InRange()) ==> InRange()
      ensures old(Balanced()) ==> Balanced()
    {
      if amt <= 0.0 { return; }
      var payment := if amt <= outstanding then amt else outstanding;
      outstanding := outstanding - payment;
      base.AddTransaction("Loan payment", -payment, now);
    }
  }

  // ---------------------------------------------------------------------------
  // Cards
  // ---------------------------------------------------------------------------

  /** A debit card charges and pays through a savings account it shares with
      its owner; it does not own that account. */
  class DebitCard {
    const base: Account
    const linkedAccount: SavingsAccount

    /** The card's own log is not the linked account's log. */
    ghost predicate Valid()
    {
      base != linkedAccount.base
    }

    constructor (accountNo: string, holderName: string, linked: SavingsAccount, now: nat)
      ensures fresh(base) && base.accountNo == accountNo && base.holderName == holderName
      ensures linkedAccount == linked
      ensures base.transactions == [Transaction(now, "Debit card issued", 0.0)]
      ensures Valid()
    {
      base := new Account(accountNo, holderName);
      linkedAccount := linked;
      new;
      base.AddTransaction("Debit card issued", 0.0, now);
    }

    /** Exactly as strict as the linked account's Withdraw: it succeeds iff
        `0 < amt <= linked balance`. On success the linked balance drops by
        `amt` and both logs gain one entry; on failure neither object
        changes. */
    method Charge(amt: real, now: nat) returns (ok: bool)
      requires Valid()
      modifies base, linkedAccount, linkedAccount.base
      ensures ok <==> 0.0 < amt <= old(linkedAccount.balance)
      ensures ok ==>
        && linkedAccount.balance == old(linkedAccount.balance) - amt
        && linkedAccount.base.transactions == old(linkedAccount.base.transactions) + [Transaction(now, "Withdraw", -amt)]
        && base.transactions == old(base.transactions) + [Transaction(now, "Card withdrawal", -amt)]
      ensures !ok ==>
        && linkedAccount.balance == old(linkedAccount.balance)
        && linkedAccount.base.transactions == old(linkedAccount.base.transactions)
        && base.transactions == old(base.transactions)
      ensures old(linkedAccount.Balanced()) ==> linkedAccount.Balanced()
    {
      if amt <= 0.0 { return false; }
      ok := linkedAccount.Withdraw(amt, now);
      if ok { base.AddTransaction("Card withdrawal", -amt, now); }
    }

    /** Paying a debit card deposits into the linked account: a non-positive
        amount is ignored; otherwise the linked balance grows by `amt`, the
        linked log gains a "Deposit" entry and the card log a "Card deposit"
        entry. */
    method Pay(amt: real, now: nat)
      requires Valid()
      modifies base, linkedAccount, linkedAccount.base
      ensures amt <= 0.0 ==>
        && linkedAccount.balance == old(linkedAccount.balance)
        && linkedAccount.base.transactions == old(linkedAccount.base.transactions)
        && base.transactions == old(base.transactions)
      ensures amt > 0.0 ==>
        && linkedAccount.balance == old(linkedAccount.balance) + amt
        && linkedAccount.base.transactions == old(linkedAccount.base.transactions) + [Transaction(now, "Deposit", amt)]
        && base.transactions == old(base.transactions) + [Transaction(now, "Card deposit", amt)]
      ensures old(linkedAccount.Balanced()) ==> linkedAccount.Balanced()
    {
      if amt <= 0.0 { return; }
      linkedAccount.Deposit(amt, now);
      base.AddTransaction("Card deposit", amt, now);
    }
  }

  class CreditCard {
    const base: Account
    const creditLimit: real
    var outstanding: real

    /** 0 <= outstanding <= creditLimit. */
    ghost predicate WithinLimit()
      reads this
    {
      0.0 <= outstanding <= creditLimit
    }

    /** The log accounts for the debt: its amounts sum to what is outstanding. */
    ghost predicate Balanced()
      reads this, base
    {
      outstanding == Sum(base.transactions)
    }

    constructor (accountNo: string, holderName: string, creditLimit: real, now: nat)
      ensures fresh(base) && base.accountNo == accountNo && base.holderName == holderName
      ensures this.creditLimit == creditLimit && outstanding == 0.0
      ensures base.transactions == [Transaction(now, "Credit card issued", 0.0)]
      ensures creditLimit >= 0.0 ==> WithinLimit()
      ensures Balanced()
    {
      base := new Account(accountNo, holderName);
      this.creditLimit := creditLimit;
      outstanding := 0.0;
      new;
      base.AddTransaction("Credit card issued", 0.0, now);
    }

    /** Succeeds iff `amt > 0` and `outstanding + amt <= creditLimit`; then
        outstanding grows by `amt` and one "Card charge" entry is logged,
        otherwise nothing changes. A success never passes the limit. */
    method Charge(amt: real, now: nat) returns (ok: bool)
      modifies this, base
      ensures ok <==> amt > 0.0 && old(outstanding) + amt <= creditLimit
      ensures ok ==>
        && outstanding == old(outstanding) + amt
        && base.transactions == old(base.transactions) + [Transaction(now, "Card charge", amt)]
      ensures !ok ==> outstanding == old(outstanding) && base.transactions == old(base.transactions)
      ensures ok ==> outstanding <= creditLimit
      ensures old(WithinLimit()) ==> WithinLimit()
      ensures old(Balanced()) ==> Balanced()
    {
      if amt <= 0.0 { return false; }
      if outstanding + amt > creditLimit { return false; }
      outstanding := outstanding + amt;
      base.AddTransaction("Card charge", amt, now);
      return true;
    }

    /** A non-positive amount is ignored. Otherwise the payment is
        min(amt, outstanding), outstanding drops by it, never below zero,
        and one entry of `-payment` is logged. */
    method Pay(amt: real, now: nat)
      modifies this, base
      ensures amt <= 0.0 ==> outstanding == old(outstanding) && base.transactions == old(base.transactions)
      ensures amt > 0.0 ==>
        var payment := if amt <= old(outstanding) then amt else old(outstanding);
        outstanding == old(outstanding) - payment
        && base.transactions == old(base.transactions) + [Transaction(now, "Card payment", -payment)]
      ensures old(outstanding) >= 0.0 ==> 0.0 <= outstanding <= old(outstanding)
      ensures amt > 0.0 && amt >= old(outstanding) ==> outstanding == 0.0
      ensures old(WithinLimit()) ==> WithinLimit()
      ensures old(Balanced()) ==> Balanced()
    {
      if amt <= 0.0 { return; }
      var payment := if amt <= outstanding then amt else outstanding;
      outstanding := outstanding - payment;
      base.AddTransaction("Card payment", -payment, now);
    }

    /** The larger of 10 and a tenth of what is outstanding. */
    function MinDue(): (r: real)
      reads this
      ensures r >= 10.0 && r >= outstanding * 0.10
      ensures r == 10.0 || r == outstanding * 0.10
    {
      if 10.0 >= outstanding * 0.10 then 10.0 else outstanding * 0.10
    }
  }

  // ---------------------------------------------------------------------------
  // User
  // ---------------------------------------------------------------------------

  /** The result of a lookup that may find nothing (Java's null). */
  datatype Option<T> = None | Some(value: T)

  /** An account of any of the five kinds a user can own. */
  datatype AnyAccount =
    | Savings(savings: SavingsAccount)
    | FixedDeposit(fd: FDAccount)
    | Loan(loan: LoanAccount)
    | Debit(debit: DebitCard)
    | Credit(credit: CreditCard)
  {
    function Base(): Account
    {
      match this
      case Savings(a) => a.base
      case FixedDeposit(a) => a.base
      case Loan(a) => a.base
      case Debit(a) => a.base
      case Credit(a) => a.base
    }

    function AccountNo(): string
    {
      Base().accountNo
    }
  }

  /** The first `min(3, |username|)` characters of the username, upper-cased. */
  function AccountNoPrefix(username: string): (p: string)
    ensures |p| == Min(3, |username|) && |p| <= 3
    ensures forall i :: 0 <= i < |p| ==> p[i] == UpperChar(username[i])
  {
    Upper(username[..Min(3, |username|)])
  }

  class User {
    const username: string
    const password: string
    const name: string
    var accounts: seq<AnyAccount>
    var accountCounter: Counter

    /** Every debit card among the accounts keeps a log of its own. */
    ghost predicate Valid()
      reads this
    {
      forall a :: a in accounts && a.Debit? ==> a.debit.Valid()
    }

    /** Every account number this user has generated so far. */
    ghost function IssuedNumbers(): set<string>
      reads this
    {
      Issued(AccountNoPrefix(username), 1000, accountCounter)
    }

    constructor (username: string, password: string, name: string)
      ensures this.username == username && this.password == password && this.name == name
      ensures accounts == [] && accountCounter == 1000
      ensures Valid() && IssuedNumbers() == {}
    {
      this.username := username;
      this.password := password;
      this.name := name;
      accounts := [];
      accountCounter := 1000;
    }

    /** Bumps the counter and returns prefix-dash-counter. The number is new:
        this user has never issued it before, so the numbers one user issues
        are pairwise distinct. */
    method GenerateAccountNo() returns (no: string)
      modifies this
      ensures accounts == old(accounts) && (Valid() <==> old(Valid()))
      ensures accountCounter == old(accountCounter) + 1
      ensures no == Compose(AccountNoPrefix(username), accountCounter)
      ensures no !in old(IssuedNumbers())
      ensures IssuedNumbers() == old(IssuedNumbers()) + {no}
    {
      IssuedNext(AccountNoPrefix(username), 1000, accountCounter);
      accountCounter := accountCounter + 1;
      no := Compose(AccountNoPrefix(username), accountCounter);
    }

    /** Appends `a`; the user stays valid exactly when it was and `a` is not
        a debit card sharing its log with its linked account. */
    method AddAccount(a: AnyAccount)
      modifies this
      ensures accounts == old(accounts) + [a] && accountCounter == old(accountCounter)
      ensures Valid() <==> old(Valid()) && (a.Debit? ==> a.debit.Valid())
    {
      accounts := accounts + [a];
    }

    /** Linear search: the first account whose number is `accNo`, or None
        when no account has that number. */
    method GetAccountByNo(accNo: string) returns (r: Option<AnyAccount>)
      ensures r.None? <==> forall i :: 0 <= i < |accounts| ==> accounts[i].AccountNo() != accNo
      ensures r.Some? ==> r.value in accounts
      ensures r.Some? ==> exists i :: 0 <= i < |accounts| && accounts[i] == r.value
                                      && accounts[i].AccountNo() == accNo
                                      && forall j :: 0 <= j < i ==> accounts[j].AccountNo() != accNo
    {
      var i := 0;
      while i < |accounts|
        invariant 0 <= i <= |accounts|
        invariant forall j :: 0 <= j < i ==> accounts[j].AccountNo() != accNo
      {
        if accounts[i].AccountNo() == accNo {
          return Some(accounts[i]);
        }
        i := i + 1;
      }
      return None;
    }
  }

  // ---------------------------------------------------------------------------
  // Bank
  // ---------------------------------------------------------------------------

  class Bank {
    const bankName: string
    var users: map<string, User>

    /** Every user is filed under its own username. */
    ghost predicate Filed()
      reads this
    {
      forall k :: k in users ==> users[k].username == k
    }

    /** Filed, and every user keeps its own invariant. */
    ghost predicate Valid()
      reads this, users.Values
    {
      Filed() && forall k :: k in users ==> users[k].Valid()
    }

    constructor (name: string)
      ensures bankName == name && users == map[] && Valid()
    {
      bankName := name;
      users := map[];
    }

    /** Files `u` under its username, replacing any user filed there. */
    method AddUser(u: User)
      requires Valid()
      modifies this
      ensures Filed() && (Valid() <==> u.Valid())
      ensures users == old(users)[u.username := u]
    {
      users := users[u.username := u];
      assert users[u.username] == u;
    }

    /** The user filed under `username`, or null. */
    function GetUser(username: string): (u: User?)
      reads this
      ensures u == null <==> username !in users
      ensures u != null ==> u == users[username]
      ensures Filed() && u != null ==> u.username == username
    {
      if username in users then users[username] else null
    }

    /** The user filed under `username`, only when its stored password equals
        `password` exactly; otherwise null (an unknown name and a wrong
        password are not told apart). */
    function Authenticate(username: string, password: string): (u: User?)
      reads this
      ensures u != null ==> username in users && u == users[username] && u.password == password
      ensures username in users && users[username].password == password ==> u != null
      ensures Filed() && u != null ==> u.username == username
    {
      var u := GetUser(username);
      if u != null && u.password == password then u else null
    }
  }

  // ---------------------------------------------------------------------------
  // Registration and account opening
  // ---------------------------------------------------------------------------

  /** Registration: an existing username is rejected and the bank is left as
      it was. Otherwise a new user is filed under the username, holding one
      savings account with balance 0 whose log is its single opening entry,
      numbered with the user's first generated number. */
  method Register(bank: Bank, username: string, password: string, name: string, now: nat) returns (u: User?)
    requires bank.Valid()
    modifies bank
    ensures bank.Valid()
    ensures old(username in bank.users) ==> u == null && bank.users == old(bank.users)
    ensures old(username !in bank.users) ==>
      u != null && fresh(u) && bank.users == old(bank.users)[username := u]
      && bank.GetUser(username) == u
      && u.username == username && u.password == password && u.name == name
      && u.accountCounter == 1001 && |u.accounts| == 1 && u.accounts[0].Savings?
      && fresh(u.accounts[0].savings) && fresh(u.accounts[0].Base()) && u.accounts[0].savings.balance == 0.0
      && u.accounts[0].AccountNo() == Compose(AccountNoPrefix(username), 1001)
      && u.accounts[0].Base().transactions == [Transaction(now, "Account opened", 0.0)]
  {
    if bank.GetUser(username) != null {
      return null;
    }
    u := new User(username, password, name);
    bank.AddUser(u);
    var no := u.GenerateAccountNo();
    var sa := new SavingsAccount(no, u.name, 0.0, now);
    u.AddAccount(Savings(sa));
  }

  /** The fixed-deposit menu as written: after the constructor has logged
      "FD Opened", the menu logs a second "Opened FD" entry of the same
      principal, so the log sums to twice the principal. */
  method OpenFixedDepositAsWritten(user: User, p: real, months: int, rate: real, now: nat) returns (fd: FDAccount)
    requires user.Valid()
    modifies user
    ensures user.Valid() && fresh(fd) && fresh(fd.base)
    ensures user.accounts == old(user.accounts) + [FixedDeposit(fd)]
    ensures user.accountCounter == old(user.accountCounter) + 1
    ensures fd.base.accountNo == Compose(AccountNoPrefix(user.username), user.accountCounter)
    ensures fd.base.holderName == user.name
    ensures fd.principal == p && fd.termMonths == months && fd.interestRate == rate
    ensures fd.base.transactions == [Transaction(now, "FD Opened", p), Transaction(now, "Opened FD", p)]
    ensures Sum(fd.base.transactions) == 2.0 * p
    ensures p != 0.0 ==> !fd.Balanced()
  {
    var no := user.GenerateAccountNo();
    fd := new FDAccount(no, user.name, p, months, rate, now);
    user.AddAccount(FixedDeposit(fd));
    fd.base.AddTransaction("Opened FD", p, now);
  }

  /** Opening a fixed deposit with the single opening entry the constructor
      logs: the log sums to the principal. */
  method OpenFixedDeposit(user: User, p: real, months: int, rate: real, now: nat) returns (fd: FDAccount)
    requires user.Valid()
    modifies user
    ensures user.Valid() && fresh(fd) && fresh(fd.base)
    ensures user.accounts == old(user.accounts) + [FixedDeposit(fd)]
    ensures user.accountCounter == old(user.accountCounter) + 1
    ensures fd.base.accountNo == Compose(AccountNoPrefix(user.username), user.accountCounter)
    ensures fd.base.holderName == user.name
    ensures fd.principal == p && fd.termMonths == months && fd.interestRate == rate
    ensures fd.base.transactions == [Transaction(now, "FD Opened", p)]
    ensures fd.Balanced()
  {
    var no := user.GenerateAccountNo();
    fd := new FDAccount(no, user.name, p, months, rate, now);
    user.AddAccount(FixedDeposit(fd));
  }

  /** The loan menu as written: after the constructor has logged
      "Loan issued", the menu logs a second "Loan granted" entry of the same
      principal, so the log no longer sums to what is outstanding. */
  method ApplyLoanAsWritten(user: User, p: real, rate: real, months: int, now: nat) returns (loan: LoanAccount)
    requires user.Valid()
    modifies user
    ensures user.Valid() && fresh(loan) && fresh(loan.base)
    ensures user.accounts == old(user.accounts) + [Loan(loan)]
    ensures user.accountCounter == old(user.accountCounter) + 1
    ensures loan.base.accountNo == Compose(AccountNoPrefix(user.username), user.accountCounter)
    ensures loan.base.holderName == user.name
    ensures loan.principal == p && loan.interestRate == rate && loan.termMonths == months
    ensures loan.outstanding == p
    ensures loan.base.transactions == [Transaction(now, "Loan issued", p), Transaction(now, "Loan granted", p)]
    ensures Sum(loan.base.transactions) == 2.0 * p
    ensures p != 0.0 ==> !loan.Balanced()
  {
    var no := user.GenerateAccountNo();
    loan := new LoanAccount(no, user.name, p, rate, months, now);
    user.AddAccount(Loan(loan));
    loan.base.AddTransaction("Loan granted", p, now);
  }

  /** Opening a loan with the single opening entry the constructor logs: the
      log sums to what is outstanding. */
  method ApplyLoan(user: User, p: real, rate: real, months: int, now: nat) returns (loan: LoanAccount)
    requires user.Valid()
    modifies user
    ensures user.Valid() && fresh(loan) && fresh(loan.base)
    ensures user.accounts == old(user.accounts) + [Loan(loan)]
    ensures user.accountCounter == old(user.accountCounter) + 1
    ensures loan.base.accountNo == Compose(AccountNoPrefix(user.username), user.accountCounter)
    ensures loan.base.holderName == user.name
    ensures loan.principal == p && loan.interestRate == rate && loan.termMonths == months
    ensures p >= 0.0 ==> loan.InRange()
    ensures loan.outstanding == p
    ensures loan.base.transactions == [Transaction(now, "Loan issued", p)]
    ensures loan.Balanced()
  {
    var no := user.GenerateAccountNo();
    loan := new LoanAccount(no, user.name, p, rate, months, now);
    user.AddAccount(Loan(loan));
  }

  // ---------------------------------------------------------------------------
  // Client scenarios: what callers can conclude from the contracts alone
  // ---------------------------------------------------------------------------

  method Scenarios()
  {
    // savings: open with 5000, deposit 1500, withdraw 2000, withdraw 10000
    var s := new SavingsAccount("ALI-1001", "Alice Wonderland", 5000.0, 1);
    s.Deposit(1500.0, 2);
    assert s.balance == 6500.0;
    var ok := s.Withdraw(2000.0, 3);
    assert ok && s.balance == 4500.0;
    ok := s.Withdraw(10000.0, 4);
    assert !ok && s.balance == 4500.0;
    assert |s.base.transactions| == 3;
    assert s.Balanced();

    // credit card: limit 5000, charge 4000, charge 2000, pay 4500
    var cc := new CreditCard("ALI-1004", "Alice Wonderland", 5000.0, 5);
    ok := cc.Charge(4000.0, 6);
    assert ok && cc.outstanding == 4000.0;
    assert cc.MinDue() == 400.0;
    ok := cc.Charge(2000.0, 7);
    assert !ok && cc.outstanding == 4000.0;
    cc.Pay(4500.0, 8);
    assert cc.outstanding == 0.0 && cc.WithinLimit();

    // debit card over the savings account: an overdraft fails on both logs
    var dc := new DebitCard("ALI-1005", "Alice Wonderland", s, 9);
    var logs := (s.base.transactions, dc.base.transactions);
    ok := dc.Charge(9000.0, 10);
    assert !ok && s.balance == 4500.0 && (s.base.transactions, dc.base.transactions) == logs;
    ok := dc.Charge(500.0, 11);
    assert ok && s.balance == 4000.0 && s.Balanced();

    // the demonstration fixed deposit
    var fd := new FDAccount("ALI-1002", "Alice Wonderland", 10000.0, 12, 5.5, 12);
    DemoMaturity(fd);
    assert fd.CalculateMaturityAmount() == 10550.0;
  }

  /** A session: register, log in, open a deposit, issue a debit card on the
      savings account, then find the card by its number and charge it. The
      bank's invariant is what lets a looked-up user and a looked-up card
      meet the preconditions of the operations. */
  method Session()
  {
    var bank := new Bank("Demo Bank");
    var alice := Register(bank, "alice", "pw", "Alice Wonderland", 13);
    var me := bank.Authenticate("alice", "pw");
    assert me != null && me == bank.users["alice"] == alice;
    var deposit := OpenFixedDeposit(me, 10000.0, 12, 5.5, 14);
    var cardNo := me.GenerateAccountNo();
    var card := new DebitCard(cardNo, me.name, me.accounts[0].savings, 15);
    me.AddAccount(Debit(card));
    assert me.Valid() && me.accounts[|me.accounts| - 1].AccountNo() == cardNo;
    var found := me.GetAccountByNo(cardNo);
    assert found.Some?;
    if found.value.Debit? {
      var ok := found.value.debit.Charge(0.0, 16);
      assert !ok;
    }
  }

  /** Listing a log sorts it in place; the balance is still accounted for,
      and deposits and withdrawals keep it so afterwards. */
  method Listing()
  {
    var s := new SavingsAccount("ALI-1001", "Alice Wonderland", 5000.0, 3);
    s.Deposit(1500.0, 1);
    s.base.SortTransactions();
    assert s.Balanced();
    var ok := s.Withdraw(2000.0, 2);
    assert ok && s.Balanced() && s.balance == 4500.0;
  }
}
