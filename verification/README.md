# Bank ledgers in Dafny

This project models two small console bank ledgers and proves properties of them.

The Python ledger (`py_version_legacy/bank.py`) has these parts:

- a `Validator` for names and digit strings;
- an `Account` base class with a `SavingsAccount` variant and a `CurrentAccount` variant. Savings has a daily withdrawal limit of 50000 that resets each calendar day. Current allows an overdraft of 10000;
- a `BankManager` that keeps the accounts in a list. It stores them one comma-separated line per account. It finds an account by number and opens new accounts from a form.

The C++ ledger (`cpp_version_legacy/bank.cpp`) keeps up to 100 accounts in five global parallel arrays plus a counter. Its parts are:

- `bank_data.txt`, which holds one space-separated line per account;
- `findAccount` and `login`;
- `accountCreation`, which needs a 4-digit password typed twice;
- deposits, and withdrawals capped at 300000 per withdrawal.

## Modules

- `Wrappers`: `Option` and `Result`.
- `Text`: the string operations the sources rely on:
  - `strip`, with Python's whitespace;
  - `split`/`join` on a delimiter;
  - `replace(" ", "")`;
  - `isalpha`/`isdigit`;
  - whitespace-separated words, as `>>` reads them, with C's whitespace.
- `Numerals`: the decimal text of whole numbers, with a parser, and Python's `float` text of a whole number (`500.0`), with `float()`'s reading of it. Printing a number and parsing it back gives the number again.
- `Errors`, `Validator`: `validate_name` and `validate_digits`.
- `Accounts`: the account record, `deposit`, the two withdrawal policies and the polymorphic `withdraw`.
- `RecordCodec`: `to_file_string` and the per-line body of `load_data`.
- `Ledger`:
  - `load_data` and `save_data` over the whole file;
  - `find_account`;
  - `create_new_account`.
- `CppTable`:
  - the C++ arrays as one immutable `Table` value;
  - `findAccount`, `login` and `accountCreation`;
  - the deposit and withdraw branches of `performTransaction`;
  - sequences of menu operations.
- `CppStore`: `saveData` and `loadData`.

Some parts of the sources become inputs:

- Python's `date.today()` is a `today` parameter.
- The random account number is an `accNum` parameter.
- The store file's content is an `Option<string>`. `None` means the file does not exist.

Money is modelled as whole numbers.

## Model

| member | source | states |
|---|---|---|
| Validator.ValidateName | py_version_legacy/bank.py:18-23 | A name is accepted exactly when it is letters and spaces with at least one letter, and at least 3 characters long including spaces. It comes back unchanged. Otherwise the letters check reports first, then the length check. |
| Validator.SpacesCountTowardLength | py_version_legacy/bank.py:18-23 | `"ab "` is accepted as a name and `"ab"` is refused as too short: spaces count toward the 3-character minimum. |
| Validator.ValidateDigits | py_version_legacy/bank.py:26-31 | A value is accepted exactly when it is a non-empty run of digits and, when a non-zero length is given, has exactly that length. It comes back unchanged. A non-digit value reports "numbers only" before any length error. |
| Accounts.Deposit | py_version_legacy/bank.py:55-60 | A positive amount raises the balance by exactly that amount and changes nothing else. A non-positive amount is refused. The variant's invariant is kept. |
| Accounts.StartDay | py_version_legacy/bank.py:88-92 | On a new day the tracker restarts at zero with today's date. On the same day it is unchanged. The balance and holder never change. |
| Accounts.SavingsWithdrawAsWritten | py_version_legacy/bank.py:85-105 | The Savings policy as written. It pays out exactly when today's usage plus the amount is within the daily limit and the amount is within the balance. The daily limit is checked first and reports the remaining allowance. A refusal leaves the balance alone but keeps the new-day reset. |
| Accounts.SavingsWithdraw | py_version_legacy/bank.py:85-105 | The Savings policy with positive amounts only. It pays out exactly when 0 < amount, the daily limit holds and the balance suffices. For every positive amount it is the policy as written, with the same account and the same error. It keeps a non-negative balance and usage within the limit. |
| Accounts.CurrentWithdrawAsWritten | py_version_legacy/bank.py:115-122 | The Current policy as written. It pays out exactly when the amount is within balance plus overdraft, and then subtracts it. Otherwise it is refused and the account is unchanged. The balance never goes below minus the overdraft. |
| Accounts.CurrentWithdraw | py_version_legacy/bank.py:115-122 | The Current policy with positive amounts only. It pays out exactly when 0 < amount <= balance + overdraft. For every positive amount it is the policy as written, with the same account and the same error. It keeps the balance >= -10000. |
| Accounts.Withdraw | py_version_legacy/bank.py:80-122 | The polymorphic `withdraw`, dispatching to the corrected policies of the first Findings row, which refuse amounts <= 0. A Savings account pays out exactly when 0 < amount, today's usage plus the amount is within 50000 and the amount is within the balance. A Current account pays out exactly when 0 < amount <= balance + 10000. A positive amount is refused for the Savings daily limit first, reporting 50000 minus today's usage; then for Savings funds; and for Current with the 10000 overdraft limit. An amount <= 0 is refused as non-positive. A payout comes off the balance; a refusal leaves it alone. Savings counts a payout against today's usage; Current keeps its tracker unchanged. The holder's details never change, and each variant's invariant is preserved. |
| Accounts.DailyCapWithinOneDay | py_version_legacy/bank.py:85-105 | Under the corrected Savings policy of the first Findings row, a series of withdrawals on one day pays out at most the remaining daily allowance. The tracker grows by exactly what was paid out. As written the cap does not hold: see `Accounts.NegativeWithdrawalLiftsDailyCap`. |
| Accounts.FreshDayCap | py_version_legacy/bank.py:88-97 | Under the corrected Savings policy of the first Findings row, a series of withdrawals on a new day pays out at most 50000, whatever is asked. As written, 100000 can be paid out. |
| Accounts.DepositThenWithdraw | py_version_legacy/bank.py:55-122 | Depositing an amount and withdrawing it again restores the balance whenever the policy admits the withdrawal. |
| Accounts.NegativeWithdrawalLiftsDailyCap | py_version_legacy/bank.py:95-105 | As written, withdrawing 50000, then -50000, then 50000 all succeed on one day. That pays out 100000 past the 50000 limit. |
| Accounts.NegativeWithdrawalRefused | py_version_legacy/bank.py:95-105 | With positive amounts required, the same series pays out only 50000. |
| Accounts.SavingsScenario | py_version_legacy/bank.py:85-105 | With 40000 on a new day, 30000 is paid out. A further 25000 is then refused for the daily limit, with 20000 reported as remaining. |
| Accounts.CurrentScenario | py_version_legacy/bank.py:113-122 | From a balance of 0, 8000 goes into overdraft. A further 3000 is refused with the 10000 overdraft limit reported. |
| RecordCodec.TypeOfTag | py_version_legacy/bank.py:155-161 | The tag "Current" gives a Current account. Every other tag gives a Savings account. |
| RecordCodec.DecodeFields | py_version_legacy/bank.py:149-169 | The fields of a line with at least 9 fields map to the account in order. The balance and the daily amount are read as `float` text of a whole number, such as `500.0` or `500`. An unreadable balance is reported with its text, and so is an unreadable daily amount on a line whose balance reads. Any tag but "Current" gives Savings. Date and daily usage are restored only from exactly 11 fields. Other lines start fresh at today. |
| RecordCodec.DecodeLine | py_version_legacy/bank.py:143-149 | A line that strips to nothing is skipped as blank. A line with fewer than 9 comma fields is skipped as short. Every other line becomes what `RecordCodec.DecodeFields` makes of its stripped comma fields: an account or an unreadable-number error. |
| RecordCodec.Encode | py_version_legacy/bank.py:76-77 | `to_file_string` joins the eleven fields with commas. For an account with no comma or line break in a field, the text is one line and splits back into exactly those fields. |
| RecordCodec.EncodeDecode | py_version_legacy/bank.py:76-77 | Decoding the line `to_file_string` writes gives the same account back, when no field holds a comma or line break. |
| RecordCodec.UnknownTagIsSavings | py_version_legacy/bank.py:160-161 | A line whose tag is neither "Savings" nor "Current" still loads, as a Savings account. |
| Ledger.Collect | py_version_legacy/bank.py:143-169 | The load succeeds exactly when no line holds an unreadable number. It then gives the account of every decoded line, in file order, and no other account. On failure the error names the text of the number on the first such line, in file order. |
| Ledger.SkipsMalformedLine | py_version_legacy/bank.py:143-149 | A line with fewer than 9 fields has no effect on what is loaded, wherever it is in the file. |
| Ledger.Load | py_version_legacy/bank.py:136-169 | No file gives an empty ledger. A load gives at most one account per line of the text, and a failed load reports an unreadable number. |
| Ledger.SaveText | py_version_legacy/bank.py:171-178 | `save_data` writes one record per account, each ended by a line break. For encodable accounts the text splits into exactly those records, in order, and one empty last line. |
| Ledger.SaveThenLoad | py_version_legacy/bank.py:136-178 | Saving the accounts and loading them at the next start gives back the same accounts, in order, when no field holds a comma or line break. |
| Ledger.SkippedLineIsInvisible | py_version_legacy/bank.py:143-149 | For any line decoder, a line it reports as blank or short leaves the collected accounts and the load's verdict unchanged. |
| Ledger.FindIndex | py_version_legacy/bank.py:213-217 | Gives the position of the first account with the number, or nothing when no account has it. |
| Ledger.FindAccount | py_version_legacy/bank.py:213-217 | Gives the first account of the ledger, in list order, with the number, or nothing exactly when there is none. |
| Ledger.CreateNewAccount | py_version_legacy/bank.py:180-211 | An account is opened exactly when the form passes every check. It is appended with the form's fields, an opening balance >= 500, the chosen type and a fresh tracker. Earlier accounts are unchanged. Each check's error is returned when every earlier check passes, in the source's order: name, father's name, CNIC, phone, unreadable deposit, deposit below 500, PIN, type. |
| Ledger.MinimumOpeningDeposit | py_version_legacy/bank.py:194-195 | With an otherwise acceptable form, an opening deposit of 499 is refused and 500 is accepted. |
| Ledger.NewAccountLookup | py_version_legacy/bank.py:206-217 | After an account is opened, a lookup of its number finds it, unless an older account already has that number. In that case the older account is found. |
| Ledger.FindIndexAppend | py_version_legacy/bank.py:213-217 | After an account is appended, the search finds the earlier match if there is one. Otherwise it finds the new account when its number matches, and nothing when it does not. |
| Numerals.IntRoundTrip | py_version_legacy/bank.py:151 | Parsing the decimal text of any whole number gives that number back. |
| Numerals.WholeFloatRoundTrip | py_version_legacy/bank.py:151 | `float()` of the text `str()` writes for a whole-number `float`, such as `500.0`, gives that number back. |
| Text.SplitJoin | py_version_legacy/bank.py:147 | Splitting fields joined by a delimiter gives the fields back, when none holds the delimiter. |
| CppTable.Initial | cpp_version_legacy/bank.cpp:8-13 | At program start the arrays have their 100 slots and no account is in use. |
| CppTable.FindAccount | cpp_version_legacy/bank.cpp:33-40 | Gives the least slot in use that holds the key. Gives -1 exactly when no slot in use holds it. Agrees with `CppTable.IndexOf`, the same search as `Apply` uses it. |
| CppTable.IndexOf | cpp_version_legacy/bank.cpp:33-40 | The same search as a function: the first matching slot from `from` on, or -1 exactly when there is none. |
| CppTable.Login | cpp_version_legacy/bank.cpp:42-61 | Login succeeds exactly when the account exists and the password equals the one stored at its first slot. |
| CppTable.AccountCreation | cpp_version_legacy/bank.cpp:63-102 | An account is created exactly when fewer than 100 are in use and the password is in 1000..9999 and equals its confirmation. It goes into the next slot with balance 0, and the counter grows by one. Earlier slots are unchanged. A full table is refused before any password check. Then a password outside 1000..9999 is refused as out of range, and only then a confirmation that differs as a mismatch. |
| CppTable.Deposit | cpp_version_legacy/bank.cpp:105-118 | A positive amount is added to that account's balance. Otherwise the deposit is refused and the table is unchanged. No other slot changes. |
| CppTable.Withdraw | cpp_version_legacy/bank.cpp:119-136 | Money is paid out exactly when 0 < amount <= 300000 and amount <= balance, and comes off the balance, which stays >= 0. An amount out of range reports the limit. An amount in range above the balance reports not enough balance. A refusal changes nothing. No other slot changes. |
| CppTable.RunKeepsTable | cpp_version_legacy/bank.cpp:63-136 | Over any series of creations, deposits and withdrawals, the counter never decreases or exceeds 100, and no balance goes negative. Accounts already in use change only their balance. |
| CppStore.ReadRecords | cpp_version_legacy/bank.cpp:27-29 | The loop reads five words per record, so it yields at most a fifth as many records as the file has words. |
| CppStore.ReadNumber | cpp_version_legacy/bank.cpp:27 | `>>` reads a number field from a word that is an optional `+` or `-` and then digits, and from no other word. |
| CppStore.ReadInt | cpp_version_legacy/bank.cpp:27 | `>>` into an `int` reads exactly the numbers that fit 32 bits; any other fails the stream. |
| CppStore.ReadWrittenNumber | cpp_version_legacy/bank.cpp:18-27 | `>>` reads back the number `<<` wrote, and as an `int` whenever it fits 32 bits. |
| CppStore.ReadRecordsNumbers | cpp_version_legacy/bank.cpp:27-29 | A balance written `+500` reads as 500. A record whose password does not fit 32 bits, such as 3000000000, ends the load before it; one that fits is read. |
| CppStore.LineWords | cpp_version_legacy/bank.cpp:18 | Reading a written line back with `>>` gives exactly the fields written, when each is a word. |
| CppStore.ReadBack | cpp_version_legacy/bank.cpp:15-31 | Reading back a store gives exactly the records written, in order, when their text fields are non-empty and have no whitespace and their passwords fit 32 bits, as every `int` does. |
| CppStore.SaveData | cpp_version_legacy/bank.cpp:15-21 | Writes one line per account in use, in slot order. That text reads back as those accounts when their fields are words. |
| CppStore.LoadAsWritten | cpp_version_legacy/bank.cpp:23-31 | The loop as written stores record k in slot k for every whole record of the file, without any bound. It reads into the next slot as well exactly when words are left over after the whole records. |
| CppStore.StrayWordOverrunsArrays | cpp_version_legacy/bank.cpp:23-31 | A store of 100 well-formed records and one stray word yields 100 records and a word left over, so the loop as written reads that word into slot 100 of 100-slot arrays. |
| CppStore.ReadBackThen | cpp_version_legacy/bank.cpp:15-31 | A store followed by any text reads back as the records written, five words each, then the records of that text. |
| CppStore.OverlongStoreOverrunsArrays | cpp_version_legacy/bank.cpp:23-31 | A store of 101 well-formed records yields 101 records, so the loop as written writes slot 100 of 100-slot arrays. |
| CppStore.LoadData | cpp_version_legacy/bank.cpp:23-31 | The corrected loop of the second Findings row, which stops at 100 accounts; the loop as written has no bound (`CppStore.LoadAsWritten`). A missing file leaves the table as it was. Otherwise the table holds the file's leading whole records, at most 100 of them, in order. |
| CppStore.SaveThenLoad | cpp_version_legacy/bank.cpp:15-31 | Saving the table and loading the file into a freshly started program restores every account in use, when their text fields are words. |

## Left out

- Floating point is not modelled. Python balances are `float`, and C++ `Acc_balance` is a `float` printed with 6 significant digits. The model uses whole numbers, so it covers neither rounding nor `1e+06`-style output. In the source, a C++ balance that needs more than 6 significant digits does not round-trip: 1234567 is saved as `1.23457e+06` and loads back as 1234570.
- Python's `float()` syntax is modelled only as optional `-` plus digits, optionally followed by `.0`. That covers the text `str()` writes for whole-number balances below 10^16. The model does not cover other decimals, exponents, `inf`/`nan`, a `+` sign or surrounding blanks, and it does not cover the `1e+16` form `str()` writes from 10^16 on.
- C++ `>>` reading a number from a word is modelled as all-or-nothing. The source can also read a numeric prefix and leave the rest in the stream. Reading the `float` balance covers a sign and digits only: not decimals, exponents, or the loss of digits past a `float`'s precision.
- Character classes are ASCII only. Python's `isalpha`, `isdigit` and `strip` also accept other Unicode letters, digits and spaces. On ASCII, `strip` drops C's whitespace and the separators 0x1C to 0x1F (`Text.IsPySpace`). C++ `>>` skips C's `isspace` set only (`Text.IsSpace`).
- The consoles, menus and prints are not modelled. This covers:
  - the Python main loop (py_version_legacy/bank.py:220-282);
  - `check_info`;
  - the C++ main loop, sub-menu and "Check Balance" option 3 (cpp_version_legacy/bank.cpp:137-201).
- The Python overdraft advisory print is not modelled, because it changes no state.
- The Python admin panel is not modelled. It only lists accounts behind a fixed password.
- File opening, closing and I/O errors are not modelled. The file content is a parameter, and `save_data`'s swallowed exceptions are not modelled.
- The Python `Account.withdraw` placeholder that raises `NotImplementedError` is not modelled. No account reaches it, because every account is one of the two variants.
- Python's `random` account number is a parameter. The model does not check that it is unique; `Ledger.NewAccountLookup` states what happens when it is not.
- CppTable.AccountCreation: models one password attempt. The source loops, asking again until the passwords are valid and match, and each refusal here stands for one more prompt.
- CppTable.Op: accounts are named by number. The password check before a session is `CppTable.Login`, and it is not repeated in `Apply`.
- The C++ phone number is not modelled, because it is read and then discarded.
- CppStore.LoadData: the fields that a failing loop condition has already read into the slot after the last whole record are not modelled. In the bounded loop that slot is below 100 and not in use. In the loop as written it can be slot 100, past the arrays. `CppStore.LoadAsWritten` reports that case as `partial`, and the second Findings row records it.
- Python file iteration is modelled as splitting on `'\n'`. A lone `'\r'`, which Python's text mode also reads as a line break, is not modelled.
- Ledger.Load: the text of a Python field holding a comma or line break does not load back as saved. `RecordCodec.Encodable` is the precondition of the round trip, and the model does not check it when an account is created.
- Validator.ValidateName: counts spaces in the 3-character minimum, as `len(name)` at bank.py:21 does, so `"ab "` is accepted.

## Findings

| source | as written | input that shows it | evidently intended | confidence | as-written member | corrected member |
|---|---|---|---|---|---|---|
| py_version_legacy/bank.py:85-122 | Neither withdrawal policy checks that the amount is positive. A negative amount is paid in, and for Savings it also lowers the day's usage. | Savings account with 100000: withdraw 50000, then -50000, then 50000 on one day. All succeed, and 100000 leaves the account past the 50000 daily limit. | Refuse amounts <= 0, as `deposit` does. | not executed | Accounts.SavingsWithdrawAsWritten, Accounts.CurrentWithdrawAsWritten, Accounts.NegativeWithdrawalLiftsDailyCap | Accounts.SavingsWithdraw, Accounts.CurrentWithdraw, Accounts.Withdraw, Accounts.NegativeWithdrawalRefused, Accounts.DailyCapWithinOneDay |
| cpp_version_legacy/bank.cpp:23-31 | `loadData` reads records while the file has them and does not compare `totalAccounts` with the array size. | A `bank_data.txt` of 101 lines such as `1 a b 0 1000`. The 101st record is written to index 100 of 100-element arrays. Smaller: 100 such lines and then the single word `x`. The failing condition `file >> Acc_num[totalAccounts]` reads `x` into index 100. | Stop reading at 100 accounts. | not executed | CppStore.LoadAsWritten, CppStore.OverlongStoreOverrunsArrays, CppStore.StrayWordOverrunsArrays | CppStore.LoadData, CppStore.SaveThenLoad |
