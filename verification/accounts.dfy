/**
 The Python ledger's account model: the `Account` base class with its two variants
 `SavingsAccount` and `CurrentAccount`, as one datatype whose `accType` selects the
 withdrawal policy. Balances and amounts are whole numbers; `today` stands for
 `str(date.today())`.

 Both withdrawal policies of the source accept any amount, including a negative one,
 which then pays money in. `SavingsWithdrawAsWritten` and `CurrentWithdrawAsWritten`
 model them exactly; `SavingsWithdraw`, `CurrentWithdraw` and `Withdraw` add the
 positivity check that `deposit` already makes, and the rest of the model uses those.
 */
module Accounts {
  import opened Wrappers
  import opened Errors

  /** `SavingsAccount.withdraw`'s `DAILY_LIMIT`. */
  const DAILY_LIMIT: int := 50000
  /** `CurrentAccount.overdraft_limit`, the same for every instance. */
  const OVERDRAFT_LIMIT: int := 10000

  datatype AccountType = Savings | Current

  datatype Account = Account(
    accNum: string,
    name: string,
    fname: string,
    cnic: string,
    phone: string,
    email: string,
    balance: int,
    pin: string,
    accType: AccountType,
    lastWithdrawDate: string,
    dailyWithdrawn: int)

  /** The `acc_type` text each variant's constructor hands to the base class. */
  function TypeTag(t: AccountType): string {
    match t
    case Savings => "Savings"
    case Current => "Current"
  }

  /** What the constructors build: no withdrawals yet, and today as the tracking date. */
  function NewAccount(accNum: string, name: string, fname: string, cnic: string, phone: string,
                      email: string, balance: int, pin: string, accType: AccountType,
                      today: string): Account
  {
    Account(accNum, name, fname, cnic, phone, email, balance, pin, accType, today, 0)
  }

  /** The outcome of a withdrawal; a rejected one may still have changed the account. */
  datatype Outcome = Done | Rejected(error: Error)

  datatype Step = Step(account: Account, outcome: Outcome)

  /** Everything but the balance and the daily tracking is the same. */
  predicate SameHolder(a: Account, b: Account) {
    && a.accNum == b.accNum && a.name == b.name && a.fname == b.fname
    && a.cnic == b.cnic && a.phone == b.phone && a.email == b.email
    && a.pin == b.pin && a.accType == b.accType
  }

  /** What each variant's policy keeps true of its account. */
  predicate Invariant(a: Account) {
    match a.accType
    case Savings => a.balance >= 0 && 0 <= a.dailyWithdrawn <= DAILY_LIMIT
    case Current => a.balance >= -OVERDRAFT_LIMIT
  }

  // ---------------------------------------------------------------------------
  // Account.deposit
  // ---------------------------------------------------------------------------

  /** A positive amount is added to the balance; anything else is refused. */
  function Deposit(a: Account, amount: int): (r: Result<Account, Error>)
    ensures r.Success? <==> amount > 0
    ensures r.Success? ==> r.value.balance == a.balance + amount
    ensures r.Success? ==> SameHolder(a, r.value)
    ensures r.Success? ==> r.value.lastWithdrawDate == a.lastWithdrawDate
    ensures r.Success? ==> r.value.dailyWithdrawn == a.dailyWithdrawn
    ensures r.Failure? ==> r.error == NonPositiveAmount
    ensures r.Success? && Invariant(a) ==> Invariant(r.value)
  {
    if amount > 0 then Success(a.(balance := a.balance + amount)) else Failure(NonPositiveAmount)
  }

  // ---------------------------------------------------------------------------
  // Daily tracking
  // ---------------------------------------------------------------------------

  /** The amount already withdrawn today, as the Savings policy counts it. */
  function UsageToday(a: Account, today: string): int {
    if a.lastWithdrawDate == today then a.dailyWithdrawn else 0
  }

  /** Step 1 of the Savings policy: on a new day the tracker restarts from zero. */
  function StartDay(a: Account, today: string): (r: Account)
    ensures r.lastWithdrawDate == today && r.dailyWithdrawn == UsageToday(a, today)
    ensures r.balance == a.balance && SameHolder(a, r)
  {
    if today != a.lastWithdrawDate then a.(dailyWithdrawn := 0, lastWithdrawDate := today) else a
  }

  // ---------------------------------------------------------------------------
  // SavingsAccount.withdraw
  // ---------------------------------------------------------------------------

  /**
   The Savings policy as the source has it: restart the tracker on a new day, then
   refuse what would take today's total past the daily limit, then refuse what is
   more than the balance, else pay out. No check that the amount is positive.
   */
  function SavingsWithdrawAsWritten(a: Account, amount: int, today: string): (r: Step)
    ensures SameHolder(a, r.account) && r.account.lastWithdrawDate == today
    ensures r.outcome.Done? <==> UsageToday(a, today) + amount <= DAILY_LIMIT && amount <= a.balance
    ensures (r.outcome == Rejected(DailyLimitExceeded(DAILY_LIMIT - UsageToday(a, today))))
              <==> UsageToday(a, today) + amount > DAILY_LIMIT
    ensures (r.outcome == Rejected(InsufficientFunds))
              <==> UsageToday(a, today) + amount <= DAILY_LIMIT && amount > a.balance
    ensures r.outcome.Done? ==> r.account.balance == a.balance - amount
    ensures r.outcome.Done? ==> r.account.dailyWithdrawn == UsageToday(a, today) + amount
    ensures r.outcome.Rejected? ==> r.account.balance == a.balance
    ensures r.outcome.Rejected? ==> r.account.dailyWithdrawn == UsageToday(a, today)
    ensures a.balance >= 0 ==> r.account.balance >= 0
    ensures UsageToday(a, today) <= DAILY_LIMIT ==> r.account.dailyWithdrawn <= DAILY_LIMIT
  {
    var b := StartDay(a, today);
    if b.dailyWithdrawn + amount > DAILY_LIMIT then
      Step(b, Rejected(DailyLimitExceeded(DAILY_LIMIT - b.dailyWithdrawn)))
    else if amount > b.balance then
      Step(b, Rejected(InsufficientFunds))
    else
      Step(b.(balance := b.balance - amount, dailyWithdrawn := b.dailyWithdrawn + amount), Done)
  }

  /** The Savings policy with non-positive amounts refused after the new-day restart. */
  function SavingsWithdraw(a: Account, amount: int, today: string): (r: Step)
    ensures SameHolder(a, r.account) && r.account.lastWithdrawDate == today
    ensures r.outcome.Done? <==> 0 < amount && UsageToday(a, today) + amount <= DAILY_LIMIT && amount <= a.balance
    ensures r.outcome == Rejected(NonPositiveAmount) <==> amount <= 0
    ensures 0 < amount ==> r == SavingsWithdrawAsWritten(a, amount, today)
    ensures r.outcome.Done? ==> r.account.balance == a.balance - amount
    ensures r.outcome.Done? ==> r.account.dailyWithdrawn == UsageToday(a, today) + amount
    ensures r.outcome.Rejected? ==> r.account.balance == a.balance
    ensures r.outcome.Rejected? ==> r.account.dailyWithdrawn == UsageToday(a, today)
    ensures a.accType == Savings && Invariant(a) ==> Invariant(r.account)
  {
    if amount <= 0 then Step(StartDay(a, today), Rejected(NonPositiveAmount))
    else SavingsWithdrawAsWritten(a, amount, today)
  }

  // ---------------------------------------------------------------------------
  // CurrentAccount.withdraw
  // ---------------------------------------------------------------------------

  /**
   The Current policy as the source has it: pay out whatever does not take the
   balance below minus the overdraft limit. No check that the amount is positive.
   */
  function CurrentWithdrawAsWritten(a: Account, amount: int): (r: Step)
    ensures r.outcome.Done? <==> amount <= a.balance + OVERDRAFT_LIMIT
    ensures r.outcome.Done? ==> r.account == a.(balance := a.balance - amount)
    ensures r.outcome.Rejected? ==> r.account == a && r.outcome.error == OverdraftExceeded(OVERDRAFT_LIMIT)
    ensures a.balance >= -OVERDRAFT_LIMIT ==> r.account.balance >= -OVERDRAFT_LIMIT
  {
    if amount > a.balance + OVERDRAFT_LIMIT then Step(a, Rejected(OverdraftExceeded(OVERDRAFT_LIMIT)))
    else Step(a.(balance := a.balance - amount), Done)
  }

  /** The Current policy with non-positive amounts refused. */
  function CurrentWithdraw(a: Account, amount: int): (r: Step)
    ensures r.outcome.Done? <==> 0 < amount <= a.balance + OVERDRAFT_LIMIT
    ensures r.outcome == Rejected(NonPositiveAmount) <==> amount <= 0
    ensures 0 < amount ==> r == CurrentWithdrawAsWritten(a, amount)
    ensures r.outcome.Done? ==> r.account == a.(balance := a.balance - amount)
    ensures r.outcome.Rejected? ==> r.account == a
    ensures a.accType == Current && Invariant(a) ==> Invariant(r.account)
  {
    if amount <= 0 then Step(a, Rejected(NonPositiveAmount)) else CurrentWithdrawAsWritten(a, amount)
  }

  // ---------------------------------------------------------------------------
  // Polymorphic withdraw
  // ---------------------------------------------------------------------------

  /**
   `user.withdraw(amt)`: the variant's own policy. Savings pays out within today's
   allowance and the balance and counts the payout against the day; Current pays out
   within the balance plus the overdraft and keeps no daily count.
   */
  function Withdraw(a: Account, amount: int, today: string): (r: Step)
    ensures SameHolder(a, r.account)
    ensures Invariant(a) ==> Invariant(r.account)
    ensures r.outcome.Done? <==>
              && 0 < amount
              && (if a.accType == Savings then UsageToday(a, today) + amount <= DAILY_LIMIT && amount <= a.balance
                  else amount <= a.balance + OVERDRAFT_LIMIT)
    ensures r.outcome == Rejected(NonPositiveAmount) <==> amount <= 0
    ensures a.accType == Savings && 0 < amount && UsageToday(a, today) + amount > DAILY_LIMIT
            ==> r.outcome == Rejected(DailyLimitExceeded(DAILY_LIMIT - UsageToday(a, today)))
    ensures a.accType == Savings && 0 < amount && UsageToday(a, today) + amount <= DAILY_LIMIT && amount > a.balance
            ==> r.outcome == Rejected(InsufficientFunds)
    ensures a.accType == Current && 0 < amount && amount > a.balance + OVERDRAFT_LIMIT
            ==> r.outcome == Rejected(OverdraftExceeded(OVERDRAFT_LIMIT))
    ensures r.outcome.Done? ==> r.account.balance == a.balance - amount
    ensures r.outcome.Rejected? ==> r.account.balance == a.balance
    ensures a.accType == Savings ==>
              && r.account.lastWithdrawDate == today
              && r.account.dailyWithdrawn == UsageToday(a, today) + (if r.outcome.Done? then amount else 0)
    ensures a.accType == Current ==>
              r.account.lastWithdrawDate == a.lastWithdrawDate && r.account.dailyWithdrawn == a.dailyWithdrawn
  {
    match a.accType
    case Savings => SavingsWithdraw(a, amount, today)
    case Current => CurrentWithdraw(a, amount)
  }

  // ---------------------------------------------------------------------------
  // Properties over several operations
  // ---------------------------------------------------------------------------

  /** The account after trying each withdrawal in turn, and the total paid out. */
  datatype Run = Run(account: Account, paidOut: int)

  function WithdrawAll(a: Account, amounts: seq<int>, today: string): Run
    decreases |amounts|
  {
    if |amounts| == 0 then Run(a, 0)
    else
      var s := Withdraw(a, amounts[0], today);
      var rest := WithdrawAll(s.account, amounts[1..], today);
      Run(rest.account, rest.paidOut + (if s.outcome.Done? then amounts[0] else 0))
  }

  /**
   Within one calendar day a Savings account pays out at most what is left of the
   daily limit, and the tracker records exactly what was paid out.
   */
  lemma {:induction false} DailyCapWithinOneDay(a: Account, amounts: seq<int>, today: string)
    requires a.accType == Savings
    ensures WithdrawAll(a, amounts, today).paidOut >= 0
    ensures UsageToday(WithdrawAll(a, amounts, today).account, today)
              == UsageToday(a, today) + WithdrawAll(a, amounts, today).paidOut
    ensures var paid := WithdrawAll(a, amounts, today).paidOut;
            paid == 0 || UsageToday(a, today) + paid <= DAILY_LIMIT
    ensures WithdrawAll(a, amounts, today).account.accType == Savings
    decreases |amounts|
  {
    if |amounts| > 0 {
      var s := Withdraw(a, amounts[0], today);
      DailyCapWithinOneDay(s.account, amounts[1..], today);
    }
  }

  /** On a fresh day a Savings account pays out at most the daily limit, whatever is asked. */
  lemma FreshDayCap(a: Account, amounts: seq<int>, today: string)
    requires a.accType == Savings && a.lastWithdrawDate != today
    ensures 0 <= WithdrawAll(a, amounts, today).paidOut <= DAILY_LIMIT
  {
    DailyCapWithinOneDay(a, amounts, today);
  }

  /**
   Depositing an amount and withdrawing it again leaves the balance as it was,
   whenever the policy lets the withdrawal through: always for a Current account
   within its overdraft, and for a Savings account with the amount still within
   today's allowance. Only the Savings tracker keeps a trace.
   */
  lemma DepositThenWithdraw(a: Account, amount: int, today: string)
    requires amount > 0 && Invariant(a)
    requires a.accType == Savings ==> UsageToday(a, today) + amount <= DAILY_LIMIT
    ensures Deposit(a, amount).Success?
    ensures var s := Withdraw(Deposit(a, amount).value, amount, today);
            s.outcome.Done? && s.account.balance == a.balance
    ensures a.accType == Savings ==>
              Withdraw(Deposit(a, amount).value, amount, today).account.dailyWithdrawn
                == UsageToday(a, today) + amount
  {
  }

  /**
   As written, a negative withdrawal is paid in and lowers the Savings tracker, so an
   account with 100000 can pay out 50000 twice on the same day.
   */
  lemma NegativeWithdrawalLiftsDailyCap(a: Account, today: string)
    requires a.accType == Savings && a.balance == 100000 && UsageToday(a, today) == 0
    ensures var s1 := SavingsWithdrawAsWritten(a, 50000, today);
            var s2 := SavingsWithdrawAsWritten(s1.account, -50000, today);
            var s3 := SavingsWithdrawAsWritten(s2.account, 50000, today);
            && s1.outcome.Done? && s2.outcome.Done? && s3.outcome.Done?
            && s3.account.balance == 50000
  {
  }

  /** With the positivity check the same sequence stops at the second step and pays out 50000 only. */
  lemma NegativeWithdrawalRefused(a: Account, today: string)
    requires a.accType == Savings && a.balance == 100000 && UsageToday(a, today) == 0
    ensures var r := WithdrawAll(a, [50000, -50000, 50000], today);
            r.paidOut == 50000 && r.account.balance == 50000
  {
    var s1 := Withdraw(a, 50000, today);
    var s2 := Withdraw(s1.account, -50000, today);
    var s3 := Withdraw(s2.account, 50000, today);
    assert s3.outcome == Rejected(DailyLimitExceeded(0));
    assert [50000, -50000, 50000][1..] == [-50000, 50000];
    assert [-50000, 50000][1..] == [50000];
    assert [50000][1..] == [];
  }

  /**
   A Savings account with 40000 on a fresh day: 30000 is paid out, then 25000 is
   refused for the daily limit with 20000 reported as what remains.
   */
  lemma SavingsScenario(a: Account, today: string)
    requires a.accType == Savings && a.balance == 40000 && a.lastWithdrawDate != today
    ensures var s1 := Withdraw(a, 30000, today);
            var s2 := Withdraw(s1.account, 25000, today);
            && s1.outcome.Done? && s1.account.balance == 10000 && s1.account.dailyWithdrawn == 30000
            && s2.outcome == Rejected(DailyLimitExceeded(20000)) && s2.account.balance == 10000
  {
  }

  /** A Current account at 0: 8000 is paid out into overdraft, a further 3000 is refused. */
  lemma CurrentScenario(a: Account, today: string)
    requires a.accType == Current && a.balance == 0
    ensures var s1 := Withdraw(a, 8000, today);
            var s2 := Withdraw(s1.account, 3000, today);
            && s1.outcome.Done? && s1.account.balance == -8000
            && s2.outcome == Rejected(OverdraftExceeded(OVERDRAFT_LIMIT)) && s2.account.balance == -8000
  {
  }
}
