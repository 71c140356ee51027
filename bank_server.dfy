/**
 * The domain model carried by the HTTP banking server: the same bank, users
 * and five account kinds as the console application, written a second time
 * with its own log descriptions, its own prefix expression, a debit-card
 * charge that relies on the linked account's guard alone, and a loan payment
 * that clamps the amount at zero before capping it.
 *
 * As in BankApp, Java inheritance is modelled by composition: every variant
 * object holds its Account part in the constant field `base`.
 */
module BankServer {
  import opened Ledger
  import opened AccountNumbers

  // ---------------------------------------------------------------------------
  // Account: identity and transaction log
  // ---------------------------------------------------------------------------

  class Account {
    const accountNo: string
    const holderName: string
    var transactions: seq<Transaction>

    constructor (accountNo: string, holderName: string)
      ensures this.accountNo == accountNo && this.holderName == holderName
      ensures transactions == []
    {
      this.accountNo := accountNo;
      this.holderName := holderName;
      transactions := [];
    }

    /** Appends one entry; earlier entries are never touched. */
    method AddTransaction(desc: string, amount: real, now: nat)
      modifies this
      ensures transactions == old(transactions) + [Transaction(now, desc, amount)]
      ensures Sum(transactions) == Sum(old(transactions)) + amount
    {
      SumAppend(transactions, Transaction(now, desc, amount));
      transactions := transactions + [Transaction(now, desc, amount)];
    }
  }

  // ---------------------------------------------------------------------------
  // SavingsAccount
  // ---------------------------------------------------------------------------

  class SavingsAccount {
    const base: Account
    var balance: real

    /** The log accounts for the balance: its amounts sum to it. */
    ghost predicate Balanced()
      reads this, base
    {
      balance == Sum(base.transactions)
    }

    constructor (no: string, holderName: string, initial: real, now: nat)
      ensures fresh(base) && base.accountNo == no && base.holderName == holderName
      ensures balance == initial
      ensures base.transactions == [Transaction(now, "opened", initial)]
      ensures Balanced()
    {
      base := new Account(no, holderName);
      balance := initial;
      new;
      base.AddTransaction("opened", initial, now);
    }

    /** A non-positive amount is ignored; otherwise the balance grows by
        `amt` and one "deposit" entry of `+amt` is logged. */
    method Deposit(amt: real, now: nat)
      modifies this, base
      ensures amt <= 0.0 ==> balance == old(balance) && base.transactions == old(base.transactions)
      ensures amt > 0.0 ==>
        && balance == old(balance) + amt
        && base.transactions == old(base.transactions) + [Transaction(now, "deposit", amt)]
      ensures balance >= old(balance)
      ensures old(Balanced()) ==> Balanced()
    {
      if amt <= 0.0 { return; }
      balance := balance + amt;
      base.AddTransaction("deposit", amt, now);
    }

    /** Fails, changing nothing, when `amt <= 0 || amt > balance`; otherwise
        the balance drops by `amt` and one "withdraw" entry of `-amt` is
        logged. A non-negative balance therefore stays non-negative. */
    method Withdraw(amt: real, now: nat) returns (ok: bool)
      modifies this, base
      ensures ok <==> 0.0 < amt <= old(balance)
      ensures ok ==>
        && balance == old(balance) - amt
        && base.transactions == old(base.transactions) + [Transaction(now, "withdraw", -amt)]
      ensures !ok ==> balance == old(balance) && base.transactions == old(base.transactions)
      ensures old(balance) >= 0.0 ==> balance >= 0.0
      ensures old(Balanced()) ==> Balanced()
    {
      if amt <= 0.0 || amt > balance { return false; }
      balance := balance - amt;
      base.AddTransaction("withdraw", -amt, now);
      return true;
    }
  }

  // ---------------------------------------------------------------------------
  // FDAccount (fixed deposit)
  // ---------------------------------------------------------------------------

  class FDAccount {
    const base: Account
    const principal: real
    const termMonths: int
    const rate: real  // annual, in percent

    /** The log accounts for the deposit: its amounts sum to the principal. */
    ghost predicate Balanced()
      reads base
    {
      principal == Sum(base.transactions)
    }

    /** Opening logs exactly one "fd_opened" entry equal to the principal. */
    constructor (no: string, holderName: string, principal: real, months: int, rate: real, now: nat)
      ensures fresh(base) && base.accountNo == no && base.holderName == holderName
      ensures this.principal == principal && termMonths == months && this.rate == rate
      ensures base.transactions == [Transaction(now, "fd_opened", principal)]
      ensures Balanced()
    {
      base := new Account(no, holderName);
      this.principal := principal;
      termMonths := months;
      this.rate := rate;
      new;
      base.AddTransaction("fd_opened", principal, now);
    }

    /** The same simple-interest projection as the console application:
        at least the principal when nothing is negative, exactly the
        principal for a zero rate or term. */
    function CalculateMaturityAmount(): (r: real)
      ensures principal >= 0.0 && rate >= 0.0 && termMonths >= 0 ==> r >= principal
      ensures rate == 0.0 || termMonths == 0 ==> r == principal
      ensures r - principal == principal * rate * (termMonths as real) / 1200.0
    {
      var yrs := termMonths as real / 12.0;
      principal + principal * (rate / 100.0) * yrs
    }
  }

  // ---------------------------------------------------------------------------
  // LoanAccount
  // ---------------------------------------------------------------------------

  /** `a` when it is positive, else 0. */
  function AmountOrZero(a: real): (r: real)
    ensures r >= 0.0
    ensures a > 0.0 ==> r == a
    ensures a <= 0.0 ==> r == 0.0
  {
    if a > 0.0 then a else 0.0
  }

  class LoanAccount {
    const base: Account
    const principal: real
    var outstanding: real
    const rate: real   // annual, in percent; not used by payments
    const months: int  // not used by payments

    /** 0 <= outstanding <= principal. */
    ghost predicate InRange()
      reads this
    {
      0.0 <= outstanding <= principal
    }

    /** The log accounts for the debt: its amounts sum to what is outstanding. */
    ghost predicate Balanced()
      reads this, base
    {
      outstanding == Sum(base.transactions)
    }

    constructor (no: string, holder: string, principal: real, rate: real, months: int, now: nat)
      ensures fresh(base) && base.accountNo == no && base.holderName == holder
      ensures this.principal == principal && outstanding == principal
      ensures this.rate == rate && this.months == months
      ensures base.transactions == [Transaction(now, "loan_granted", principal)]
      ensures principal >= 0.0 ==> InRange()
      ensures Balanced()
    {
      base := new Account(no, holder);
      this.principal := principal;
      outstanding := principal;
      this.rate := rate;
      this.months := months;
      new;
      base.AddTransaction("loan_granted", principal, now);
    }

    /** A non-positive amount is ignored. Otherwise the payment is
        min(AmountOrZero(amt), outstanding), which on this path is
        min(amt, outstanding): outstanding drops by it, never rises, and an
        overpayment leaves exactly 0. */
    method Pay(amt: real, now: nat)
      modifies this, base
      ensures amt <= 0.0 ==> outstanding == old(outstanding) && base.transactions == old(base.transactions)
      ensures amt > 0.0 ==>
        var payment := if amt <= old(outstanding) then amt else old(outstanding);
        outstanding == old(outstanding) - payment
        && base.transactions == old(base.transactions) + [Transaction(now, "loan_payment", -payment)]
      ensures old(outstanding) >= 0.0 ==> 0.0 <= outstanding <= old(outstanding)
      ensures amt > 0.0 && amt >= old(outstanding) ==> outstanding == 0.0
      ensures old(InRange()) ==> InRange()
      ensures old(Balanced()) ==> Balanced()
    {
      if amt <= 0.0 { return; }
      var a := AmountOrZero(amt);
      var p := if a <= outstanding then a else outstanding;
      outstanding := outstanding - p;
      base.AddTransaction("loan_payment", -p, now);
    }
  }

  // ---------------------------------------------------------------------------
  // Cards
  // ---------------------------------------------------------------------------

  /** A debit card charges and pays through a savings account it shares with
      its owner; it does not own that account. */
  class DebitCard {
    const base: Account
    const linked: SavingsAccount

    /** The card's own log is not the linked account's log. */
    ghost predicate Valid()
    {
      base != linked.base
    }

    constructor (no: string, holder: string, linked: SavingsAccount, now: nat)
      ensures fresh(base) && base.accountNo == no && base.holderName == holder
      ensures this.linked == linked
      ensures base.transactions == [Transaction(now, "debit_issued", 0.0)]
      ensures Valid()
    {
      base := new Account(no, holder);
      this.linked := linked;
      new;
      base.AddTransaction("debit_issued", 0.0, now);
    }

    /** No guard of its own: the linked account's Withdraw decides. So a
        charge of `amt <= 0` or above the linked balance still fails with
        neither object changed, and a success moves the linked balance and
        appends to both logs. */
    method Charge(amt: real, now: nat) returns (ok: bool)
      requires Valid()
      modifies base, linked, linked.base
      ensures ok <==> 0.0 < amt <= old(linked.balance)
      ensures ok ==>
        && linked.balance == old(linked.balance) - amt
        && linked.base.transactions == old(linked.base.transactions) + [Transaction(now, "withdraw", -amt)]
        && base.transactions == old(base.transactions) + [Transaction(now, "card_withdraw", -amt)]
      ensures !ok ==>
        && linked.balance == old(linked.balance)
        && linked.base.transactions == old(linked.base.transactions)
        && base.transactions == old(base.transactions)
      ensures old(linked.Balanced()) ==> linked.Balanced()
    {
      ok := linked.Withdraw(amt, now);
      if ok { base.AddTransaction("card_withdraw", -amt, now); }
    }

    /** Paying a debit card deposits into the linked account: a non-positive
        amount is ignored; otherwise the linked balance grows by `amt` and
        each log gains one entry. */
    method Pay(amt: real, now: nat)
      requires Valid()
      modifies base, linked, linked.base
      ensures amt <= 0.0 ==>
        && linked.balance == old(linked.balance)
        && linked.base.transactions == old(linked.base.transactions)
        && base.transactions == old(base.transactions)
      ensures amt > 0.0 ==>
        && linked.balance == old(linked.balance) + amt
        && linked.base.transactions == old(linked.base.transactions) + [Transaction(now, "deposit", amt)]
        && base.transactions == old(base.transactions) + [Transaction(now, "card_deposit", amt)]
      ensures old(linked.Balanced()) ==> linked.Balanced()
    {
      if amt <= 0.0 { return; }
      linked.Deposit(amt, now);
      base.AddTransaction("card_deposit", amt, now);
    }
  }

  class CreditCard {
    const base: Account
    const limit: real
    var outstanding: real

    /** 0 <= outstanding <= limit. */
    ghost predicate WithinLimit()
      reads this
    {
      0.0 <= outstanding <= limit
    }

    /** The log accounts for the debt: its amounts sum to what is outstanding. */
    ghost predicate Balanced()
      reads this, base
    {
      outstanding == Sum(base.transactions)
    }

    constructor (no: string, holder: string, limit: real, now: nat)
      ensures fresh(base) && base.accountNo == no && base.holderName == holder
      ensures this.limit == limit && outstanding == 0.0
      ensures base.transactions == [Transaction(now, "credit_issued", 0.0)]
      ensures limit >= 0.0 ==> WithinLimit()
      ensures Balanced()
    {
      base := new Account(no, holder);
      this.limit := limit;
      outstanding := 0.0;
      new;
      base.AddTransaction("credit_issued", 0.0, now);
    }

    /** Rejects `amt <= 0` and any charge that would take outstanding past
        the limit, changing nothing; otherwise outstanding grows by `amt`
        and one "card_charge" entry is logged. */
    method Charge(amt: real, now: nat) returns (ok: bool)
      modifies this, base
      ensures ok <==> amt > 0.0 && old(outstanding) + amt <= limit
      ensures ok ==>
        && outstanding == old(outstanding) + amt
        && base.transactions == old(base.transactions) + [Transaction(now, "card_charge", amt)]
      ensures !ok ==> outstanding == old(outstanding) && base.transactions == old(base.transactions)
      ensures ok ==> outstanding <= limit
      ensures old(WithinLimit()) ==> WithinLimit()
      ensures old(Balanced()) ==> Balanced()
    {
      if amt <= 0.0 { return false; }
      if outstanding + amt > limit { return false; }
      outstanding := outstanding + amt;
      base.AddTransaction("card_charge", amt, now);
      return true;
    }

    /** A non-positive amount is ignored. Otherwise the payment is
        min(amt, outstanding): outstanding drops by it, never below zero. */
    method Pay(amt: real, now: nat)
      modifies this, base
      ensures amt <= 0.0 ==> outstanding == old(outstanding) && base.transactions == old(base.transactions)
      ensures amt > 0.0 ==>
        var p := if amt <= old(outstanding) then amt else old(outstanding);
        outstanding == old(outstanding) - p
        && base.transactions == old(base.transactions) + [Transaction(now, "card_pay", -p)]
      ensures old(outstanding) >= 0.0 ==> 0.0 <= outstanding <= old(outstanding)
      ensures amt > 0.0 && amt >= old(outstanding) ==> outstanding == 0.0
      ensures old(WithinLimit()) ==> WithinLimit()
      ensures old(Balanced()) ==> Balanced()
    {
      if amt <= 0.0 { return; }
      var p := if amt <= outstanding then amt else outstanding;
      outstanding := outstanding - p;
      base.AddTransaction("card_pay", -p, now);
    }

    /** The larger of 10 and a tenth of what is outstanding. */
    function MinDue(): (r: real)
      reads this
      ensures r >= 10.0 && r >= outstanding * 0.10
      ensures r == 10.0 || r == outstanding * 0.10
    {
      if 10.0 >= outstanding * 0.10 then 10.0 else outstanding * 0.10
    }
  }

  // ---------------------------------------------------------------------------
  // User
  // ---------------------------------------------------------------------------

  /** The result of a lookup that may find nothing (Java's null). */
  datatype Option<T> = None | Some(value: T)

  /** An account of any of the five kinds a user can own. */
  datatype AnyAccount =
    | Savings(savings: SavingsAccount)
    | FixedDeposit(fd: FDAccount)
    | Loan(loan: LoanAccount)
    | Debit(debit: DebitCard)
    | Credit(credit: CreditCard)
  {
    function Base(): Account
    {
      match this
      case Savings(a) => a.base
      case FixedDeposit(a) => a.base
      case Loan(a) => a.base
      case Debit(a) => a.base
      case Credit(a) => a.base
    }

    function AccountNo(): string
    {
      Base().accountNo
    }
  }

  /** The username upper-cased when it is shorter than 3 characters, else
      its first 3 characters upper-cased: in both cases the first
      `min(3, |username|)` characters. */
  function AccountNoPrefix(username: string): (p: string)
    ensures |p| == Min(3, |username|) && |p| <= 3
    ensures forall i :: 0 <= i < |p| ==> p[i] == UpperChar(username[i])
  {
    if |username| >= 3 then Upper(username[..3]) else Upper(username)
  }

  class User {
    const username: string
    const password: string
    const name: string
    var accounts: seq<AnyAccount>
    var counter: Counter

    /** Every debit card among the accounts keeps a log of its own. */
    ghost predicate Valid()
      reads this
    {
      forall a :: a in accounts && a.Debit? ==> a.debit.Valid()
    }

    /** Every account number this user has generated so far. */
    ghost function IssuedNumbers(): set<string>
      reads this
    {
      Issued(AccountNoPrefix(username), 1000, counter)
    }

    constructor (username: string, password: string, name: string)
      ensures this.username == username && this.password == password && this.name == name
      ensures accounts == [] && counter == 1000
      ensures Valid() && IssuedNumbers() == {}
    {
      this.username := username;
      this.password := password;
      this.name := name;
      accounts := [];
      counter := 1000;
    }

    /** Appends `a`; the user stays valid exactly when it was and `a` is not
        a debit card sharing its log with its linked account. */
    method AddAccount(a: AnyAccount)
      modifies this
      ensures accounts == old(accounts) + [a] && counter == old(counter)
      ensures Valid() <==> old(Valid()) && (a.Debit? ==> a.debit.Valid())
    {
      accounts := accounts + [a];
    }

    /** Linear search: the first account whose number is `no`, or None when
        no account has that number. */
    method GetAccountByNo(no: string) returns (r: Option<AnyAccount>)
      ensures r.None? <==> forall i :: 0 <= i < |accounts| ==> accounts[i].AccountNo() != no
      ensures r.Some? ==> r.value in accounts
      ensures r.Some? ==> exists i :: 0 <= i < |accounts| && accounts[i] == r.value
                                      && accounts[i].AccountNo() == no
                                      && forall j :: 0 <= j < i ==> accounts[j].AccountNo() != no
    {
      for i := 0 to |accounts|
        invariant forall j :: 0 <= j < i ==> accounts[j].AccountNo() != no
      {
        if accounts[i].AccountNo() == no {
          return Some(accounts[i]);
        }
      }
      return None;
    }

    /** Bumps the counter and returns prefix-dash-counter; the number is one
        this user has never issued before. */
    method GenerateAccountNo() returns (no: string)
      modifies this
      ensures accounts == old(accounts) && (Valid() <==> old(Valid()))
      ensures counter == old(counter) + 1
      ensures no == Compose(AccountNoPrefix(username), counter)
      ensures no !in old(IssuedNumbers())
      ensures IssuedNumbers() == old(IssuedNumbers()) + {no}
    {
      IssuedNext(AccountNoPrefix(username), 1000, counter);
      counter := counter + 1;
      var p := AccountNoPrefix(username);
      no := Compose(p, counter);
    }
  }

  // ---------------------------------------------------------------------------
  // Bank
  // ---------------------------------------------------------------------------

  class Bank {
    const name: string
    var users: map<string, User>

    /** Every user is filed under its own username. */
    ghost predicate Filed()
      reads this
    {
      forall k :: k in users ==> users[k].username == k
    }

    /** Filed, and every user keeps its own invariant. */
    ghost predicate Valid()
      reads this, users.Values
    {
      Filed() && forall k :: k in users ==> users[k].Valid()
    }

    constructor (n: string)
      ensures name == n && users == map[] && Valid()
    {
      name := n;
      users := map[];
    }

    /** Files `u` under its username, replacing any user filed there. */
    method AddUser(u: User)
      requires Valid()
      modifies this
      ensures Filed() && (Valid() <==> u.Valid())
      ensures users == old(users)[u.username := u]
    {
      users := users[u.username := u];
      assert users[u.username] == u;
    }

    /** The user filed under `username`, or null. */
    function GetUser(username: string): (u: User?)
      reads this
      ensures u == null <==> username !in users
      ensures u != null ==> u == users[username]
      ensures Filed() && u != null ==> u.username == username
    {
      if username in users then users[username] else null
    }

    /** The user filed under `username`, only when its stored password equals
        `password` exactly; otherwise null. */
    function Authenticate(username: string, password: string): (u: User?)
      reads this
      ensures u != null ==> username in users && u == users[username] && u.password == password
      ensures username in users && users[username].password == password ==> u != null
      ensures Filed() && u != null ==> u.username == username
    {
      var u := if username in users then users[username] else null;
      if u != null && u.password == password then u else null
    }
  }

  // ---------------------------------------------------------------------------
  // Registration
  // ---------------------------------------------------------------------------

  /** The registration critical section, taken as one atomic step: an
      existing username is rejected with the bank unchanged; otherwise a new
      user is filed under the username, holding one savings account with
      balance 0 whose log is its single "opened" entry. */
  method Register(bank: Bank, username: string, password: string, name: string, now: nat) returns (u: User?)
    requires bank.Valid()
    modifies bank
    ensures bank.Valid()
    ensures old(username in bank.users) ==> u == null && bank.users == old(bank.users)
    ensures old(username !in bank.users) ==>
      u != null && fresh(u) && bank.users == old(bank.users)[username := u]
      && bank.GetUser(username) == u
      && u.username == username && u.password == password && u.name == name
      && u.counter == 1001 && |u.accounts| == 1 && u.accounts[0].Savings?
      && fresh(u.accounts[0].savings) && fresh(u.accounts[0].Base()) && u.accounts[0].savings.balance == 0.0
      && u.accounts[0].AccountNo() == Compose(AccountNoPrefix(username), 1001)
      && u.accounts[0].Base().transactions == [Transaction(now, "opened", 0.0)]
  {
    if bank.GetUser(username) != null {
      return null;
    }
    u := new User(username, password, name);
    bank.AddUser(u);
    var no := u.GenerateAccountNo();
    var sa := new SavingsAccount(no, u.name, 0.0, now);
    u.AddAccount(Savings(sa));
  }

  /** A session as the request handlers run it: a user is looked up by name,
      a card is issued on the user's savings account under a freshly
      generated number, then found by that number and charged. The bank's
      invariant is what lets the looked-up user and card meet the
      preconditions of the operations. */
  method Session()
  {
    var bank := new Bank("Demo Bank");
    var bob := Register(bank, "bo", "pw", "Bob", 1);
    var u := bank.GetUser("bo");
    assert u != null && u == bank.users["bo"] == bob;
    var no := u.GenerateAccountNo();
    assert no == Compose("BO", 1002);
    var card := new DebitCard(no, u.name, u.accounts[0].savings, 2);
    u.AddAccount(Debit(card));
    assert u.Valid() && u.accounts[|u.accounts| - 1].AccountNo() == no;
    var found := u.GetAccountByNo(no);
    assert found.Some?;
    if found.value.Debit? {
      var ok := found.value.debit.Charge(50.0, 3);
      assert !ok;
    }
  }
}
