/**
 The C++ ledger's account table: five global parallel arrays of 100 slots
 (`Acc_num`, `Acc_name`, `Acc_surname`, `Acc_balance`, `Acc_password`) and the
 counter `totalAccounts` of slots in use. The table is a value here; every operation
 returns the new table. Balances are whole numbers (the source's amounts are `int`).
 */
module CppTable {
  import opened Wrappers

  /** The length of every array. */
  const CAPACITY: nat := 100
  /** `WITHDRAW_LIMIT`: the largest single withdrawal. */
  const WITHDRAW_LIMIT: int := 300000
  /** Passwords are 4-digit numbers. */
  const MIN_PASSWORD: int := 1000
  const MAX_PASSWORD: int := 9999

  /** What one slot of the five arrays holds; also one record of the store. */
  datatype Record = Record(accNum: string, name: string, surname: string, balance: int, password: int)

  datatype Table = Table(
    accNum: seq<string>,
    name: seq<string>,
    surname: seq<string>,
    balance: seq<int>,
    password: seq<int>,
    total: int)

  /** Every array has its fixed length and the counter is within it. */
  predicate Valid(t: Table) {
    && |t.accNum| == CAPACITY && |t.name| == CAPACITY && |t.surname| == CAPACITY
    && |t.balance| == CAPACITY && |t.password| == CAPACITY
    && 0 <= t.total <= CAPACITY
  }

  function At(t: Table, i: int): Record
    requires Valid(t) && 0 <= i < CAPACITY
  {
    Record(t.accNum[i], t.name[i], t.surname[i], t.balance[i], t.password[i])
  }

  /** The arrays at program start: zero-initialised globals, no accounts. */
  function Initial(): (t: Table)
    ensures Valid(t) && t.total == 0
  {
    Table(seq(CAPACITY, _ => ""), seq(CAPACITY, _ => ""), seq(CAPACITY, _ => ""),
          seq(CAPACITY, _ => 0), seq(CAPACITY, _ => 0), 0)
  }

  /** Writes one slot of all five arrays. */
  function Put(t: Table, i: int, r: Record): (t': Table)
    requires Valid(t) && 0 <= i < CAPACITY
    ensures Valid(t') && t'.total == t.total
    ensures At(t', i) == r
    ensures forall j :: 0 <= j < CAPACITY && j != i ==> At(t', j) == At(t, j)
  {
    t.(accNum := t.accNum[i := r.accNum], name := t.name[i := r.name],
       surname := t.surname[i := r.surname], balance := t.balance[i := r.balance],
       password := t.password[i := r.password])
  }

  /** The accounts in use, in slot order. */
  function Records(t: Table): (rs: seq<Record>)
    requires Valid(t)
    ensures |rs| == t.total
    ensures forall i :: 0 <= i < t.total ==> rs[i] == At(t, i)
  {
    seq(t.total, i requires 0 <= i < t.total => At(t, i))
  }

  /** `i` is the first slot in use whose account number is `key`. */
  predicate IsFirstMatch(t: Table, key: string, i: int)
    requires Valid(t)
  {
    && 0 <= i < t.total && t.accNum[i] == key
    && forall j :: 0 <= j < i ==> t.accNum[j] != key
  }

  // ---------------------------------------------------------------------------
  // findAccount / login
  // ---------------------------------------------------------------------------

  /** `findAccount`: the first slot in use holding `key`, or -1 when none does. */
  method FindAccount(t: Table, key: string) returns (index: int)
    requires Valid(t)
    ensures -1 <= index < t.total
    ensures index >= 0 ==> IsFirstMatch(t, key, index)
    ensures index == -1 <==> forall i :: 0 <= i < t.total ==> t.accNum[i] != key
    ensures index == IndexOf(t, key, 0)
  {
    var i := 0;
    while i < t.total
      invariant 0 <= i <= t.total
      invariant forall j :: 0 <= j < i ==> t.accNum[j] != key
    {
      if t.accNum[i] == key {
        return i;
      }
      i := i + 1;
    }
    return -1;
  }

  /** `login`: the account exists and the entered password is the one stored in its first slot. */
  method Login(t: Table, key: string, password: int) returns (ok: bool)
    requires Valid(t)
    ensures ok <==> exists i :: IsFirstMatch(t, key, i) && t.password[i] == password
  {
    var index := FindAccount(t, key);
    if index == -1 {
      return false;
    }
    ok := password == t.password[index];
    forall i | IsFirstMatch(t, key, i)
      ensures i == index
    {
      FirstMatchUnique(t, key, i, index);
    }
  }

  /** At most one slot is the first match for a key. */
  lemma FirstMatchUnique(t: Table, key: string, i: int, j: int)
    requires Valid(t) && IsFirstMatch(t, key, i) && IsFirstMatch(t, key, j)
    ensures i == j
  {
  }

  // ---------------------------------------------------------------------------
  // accountCreation
  // ---------------------------------------------------------------------------

  datatype CreateError =
    | TableFull             // "Cannot create more accounts, limit reached!"
    | PasswordOutOfRange    // not a 4-digit number: the source asks again
    | PasswordMismatch      // confirmation differs: the source asks again

  /**
   One pass of `accountCreation`: refused when the table is full; otherwise the
   password must be a 4-digit number equal to its confirmation, and then the next
   free slot receives the account with a zero balance. The phone number the source
   reads is never stored and so is not an argument.
   */
  function AccountCreation(t: Table, name: string, surname: string, cnic: string,
                           password: int, confirm: int): (r: Result<Table, CreateError>)
    requires Valid(t)
    ensures r.Success? <==> t.total < CAPACITY && MIN_PASSWORD <= password <= MAX_PASSWORD && password == confirm
    ensures r == Failure(TableFull) <==> t.total == CAPACITY
    ensures r == Failure(PasswordOutOfRange) <==> t.total < CAPACITY && !(MIN_PASSWORD <= password <= MAX_PASSWORD)
    ensures r == Failure(PasswordMismatch)
            <==> t.total < CAPACITY && MIN_PASSWORD <= password <= MAX_PASSWORD && password != confirm
    ensures r.Success? ==> Valid(r.value) && r.value.total == t.total + 1
    ensures r.Success? ==> At(r.value, t.total) == Record(cnic, name, surname, 0, password)
    ensures r.Success? ==> forall i :: 0 <= i < t.total ==> At(r.value, i) == At(t, i)
  {
    if t.total >= CAPACITY then Failure(TableFull)
    else if !(MIN_PASSWORD <= password <= MAX_PASSWORD) then Failure(PasswordOutOfRange)
    else if password != confirm then Failure(PasswordMismatch)
    else
      var t' := Put(t, t.total, Record(cnic, name, surname, 0, password));
      Success(t'.(total := t.total + 1))
  }

  // ---------------------------------------------------------------------------
  // performTransaction
  // ---------------------------------------------------------------------------

  datatype TxOutcome =
    | Ok
    | InvalidAmount        // deposit of a non-positive amount
    | ExceedsWithdrawLimit // withdrawal not in 1..WITHDRAW_LIMIT
    | NotEnoughBalance     // withdrawal above the balance

  datatype Tx = Tx(table: Table, outcome: TxOutcome)

  /** Option 1: a positive amount is added to the account's balance; nothing else changes. */
  function Deposit(t: Table, index: int, amount: int): (r: Tx)
    requires Valid(t) && 0 <= index < t.total
    ensures Valid(r.table) && r.table.total == t.total
    ensures r.outcome == Ok <==> amount > 0
    ensures r.outcome != Ok ==> r.outcome == InvalidAmount && r.table == t
    ensures r.outcome == Ok ==> At(r.table, index) == At(t, index).(balance := t.balance[index] + amount)
    ensures forall j :: 0 <= j < CAPACITY && j != index ==> At(r.table, j) == At(t, j)
  {
    if amount > 0 then Tx(Put(t, index, At(t, index).(balance := t.balance[index] + amount)), Ok)
    else Tx(t, InvalidAmount)
  }

  /**
   Option 2: an amount in 1..WITHDRAW_LIMIT that the balance covers is taken from
   it; anything else is refused and nothing changes.
   */
  function Withdraw(t: Table, index: int, amount: int): (r: Tx)
    requires Valid(t) && 0 <= index < t.total
    ensures Valid(r.table) && r.table.total == t.total
    ensures r.outcome == Ok <==> 0 < amount <= WITHDRAW_LIMIT && amount <= t.balance[index]
    ensures r.outcome == ExceedsWithdrawLimit <==> !(0 < amount <= WITHDRAW_LIMIT)
    ensures r.outcome == NotEnoughBalance <==> 0 < amount <= WITHDRAW_LIMIT && amount > t.balance[index]
    ensures r.outcome != Ok ==> r.table == t
    ensures r.outcome == Ok ==> At(r.table, index) == At(t, index).(balance := t.balance[index] - amount)
    ensures r.outcome == Ok ==> r.table.balance[index] >= 0
    ensures forall j :: 0 <= j < CAPACITY && j != index ==> At(r.table, j) == At(t, j)
  {
    if 0 < amount <= WITHDRAW_LIMIT then
      if amount <= t.balance[index] then
        Tx(Put(t, index, At(t, index).(balance := t.balance[index] - amount)), Ok)
      else Tx(t, NotEnoughBalance)
    else Tx(t, ExceedsWithdrawLimit)
  }

  // ---------------------------------------------------------------------------
  // Sessions
  // ---------------------------------------------------------------------------

  /** The first slot in use holding `key`, or -1: `findAccount` as a function. */
  function IndexOf(t: Table, key: string, from: int): (r: int)
    requires Valid(t) && 0 <= from <= t.total
    ensures r == -1 <==> forall i :: from <= i < t.total ==> t.accNum[i] != key
    ensures r != -1 ==> from <= r < t.total && t.accNum[r] == key
    ensures r != -1 ==> forall j :: from <= j < r ==> t.accNum[j] != key
    decreases t.total - from
  {
    if from == t.total then -1
    else if t.accNum[from] == key then from
    else IndexOf(t, key, from + 1)
  }

  /** What a user does from the main menu, naming accounts by their number as the menu does. */
  datatype Op =
    | Create(name: string, surname: string, cnic: string, password: int, confirm: int)
    | DepositTo(key: string, amount: int)
    | WithdrawFrom(key: string, amount: int)

  function Apply(t: Table, op: Op): (t': Table)
    requires Valid(t)
    ensures Valid(t')
  {
    match op
    case Create(name, surname, cnic, password, confirm) =>
      var r := AccountCreation(t, name, surname, cnic, password, confirm);
      if r.Success? then r.value else t
    case DepositTo(key, amount) =>
      var i := IndexOf(t, key, 0);
      if i == -1 then t else Deposit(t, i, amount).table
    case WithdrawFrom(key, amount) =>
      var i := IndexOf(t, key, 0);
      if i == -1 then t else Withdraw(t, i, amount).table
  }

  function Run(t: Table, ops: seq<Op>): (t': Table)
    requires Valid(t)
    ensures Valid(t')
    decreases |ops|
  {
    if |ops| == 0 then t else Run(Apply(t, ops[0]), ops[1..])
  }

  /** No account in use has a negative balance. */
  predicate Solvent(t: Table)
    requires Valid(t)
  {
    forall i :: 0 <= i < t.total ==> t.balance[i] >= 0
  }

  /**
   Whatever the users do, the counter stays within the arrays, accounts already in
   use only change balance, and no balance goes below zero.
   */
  lemma {:induction false} RunKeepsTable(t: Table, ops: seq<Op>)
    requires Valid(t) && Solvent(t)
    ensures Solvent(Run(t, ops))
    ensures t.total <= Run(t, ops).total <= CAPACITY
    ensures forall i :: 0 <= i < t.total ==>
              At(Run(t, ops), i) == At(t, i).(balance := Run(t, ops).balance[i])
    decreases |ops|
  {
    if |ops| > 0 {
      var t1 := Apply(t, ops[0]);
      assert Solvent(t1) && t.total <= t1.total;
      assert forall i :: 0 <= i < t.total ==> At(t1, i) == At(t, i).(balance := t1.balance[i]);
      RunKeepsTable(t1, ops[1..]);
    }
  }
}
