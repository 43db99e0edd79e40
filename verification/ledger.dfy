/**
 The Python ledger's `BankManager`: the list of accounts, loaded from and saved to a
 text store of one record per line, looked up by account number, and extended by
 account creation. File access is left out: `Load` takes the file's text (or
 `None` when there is no file) and `SaveText` returns the text `save_data` writes.
 */
module Ledger {
  import opened Wrappers
  import opened Text
  import opened Numerals
  import opened Errors
  import opened Validator
  import opened Accounts
  import opened RecordCodec

  /** `create_new_account`'s minimum opening deposit. */
  const MIN_DEPOSIT: int := 500

  // ---------------------------------------------------------------------------
  // load_data / save_data
  // ---------------------------------------------------------------------------

  /** Each line's fate under the loader, in order. */
  function DecodeAll(lines: seq<string>, decode: string -> LineResult): (rs: seq<LineResult>)
    ensures |rs| == |lines|
  {
    if |lines| == 0 then [] else [decode(lines[0])] + DecodeAll(lines[1..], decode)
  }

  /** The loader for one line, with `today` fixed. */
  function Decoder(today: string): string -> LineResult {
    line => DecodeLine(line, today)
  }

  /** The accounts of the decoded lines, in file order. */
  function DecodedAccounts(rs: seq<LineResult>): (accounts: seq<Account>)
    ensures |accounts| <= |rs|
    ensures forall i :: 0 <= i < |rs| && rs[i].Decoded? ==> rs[i].account in accounts
    ensures forall a :: a in accounts ==> Decoded(a) in rs
  {
    if |rs| == 0 then []
    else
      var rest := DecodedAccounts(rs[1..]);
      assert forall i :: 1 <= i < |rs| ==> rs[i] == rs[1..][i - 1];
      if rs[0].Decoded? then [rs[0].account] + rest else rest
  }

  /**
   The accounts of the decoded lines, in order, skipping blank and short lines; the
   first line whose number text does not parse ends the load with that error.
   */
  function Collect(rs: seq<LineResult>): (r: Result<seq<Account>, Error>)
    ensures r.Success? <==> forall i :: 0 <= i < |rs| ==> !rs[i].BadNumber?
    ensures r.Success? ==> r.value == DecodedAccounts(rs)
    ensures r.Success? ==> forall i :: 0 <= i < |rs| && rs[i].Decoded? ==> rs[i].account in r.value
    ensures r.Success? ==> forall a :: a in r.value ==> Decoded(a) in rs
    ensures r.Failure? ==>
              && r.error.NotANumber?
              && exists i :: 0 <= i < |rs| && rs[i] == BadNumber(r.error.text)
                             && forall j :: 0 <= j < i ==> !rs[j].BadNumber?
  {
    if |rs| == 0 then Success([])
    else
      var rest := Collect(rs[1..]);
      match rs[0]
      case BadNumber(text) => Failure(NotANumber(text))
      case Blank => rest
      case Short => rest
      case Decoded(a) => if rest.Success? then Success([a] + rest.value) else rest
  }

  /** The loop of `load_data` over the lines of the file. */
  function LoadLines(lines: seq<string>, today: string): Result<seq<Account>, Error> {
    Collect(DecodeAll(lines, Decoder(today)))
  }

  /** `load_data`: no file means an empty ledger; otherwise every line of the text is loaded. */
  function Load(file: Option<string>, today: string): (r: Result<seq<Account>, Error>)
    ensures file.None? ==> r == Success([])
    ensures file.Some? && r.Success? ==> |r.value| <= |Split(file.value, '\n')|
    ensures r.Failure? ==> r.error.NotANumber?
  {
    match file
    case None => Success([])
    case Some(text) => LoadLines(Split(text, '\n'), today)
  }

  /** The lines `save_data` writes, one per account in order. */
  function EncodeAll(accounts: seq<Account>): (lines: seq<string>)
    ensures |lines| == |accounts|
  {
    if |accounts| == 0 then [] else [Encode(accounts[0])] + EncodeAll(accounts[1..])
  }

  predicate AllEncodable(accounts: seq<Account>) {
    forall i :: 0 <= i < |accounts| ==> Encodable(accounts[i])
  }

  /**
   `save_data`: every record followed by a line break. When the records are encodable,
   the text splits into those records and one empty last line.
   */
  function SaveText(accounts: seq<Account>): (r: string)
    ensures AllEncodable(accounts) ==> Split(r, '\n') == EncodeAll(accounts) + [""]
  {
    if |accounts| == 0 then ""
    else
      var line, rest := Encode(accounts[0]), SaveText(accounts[1..]);
      if AllEncodable(accounts) then
        assert AllEncodable(accounts[1..]) by {
          assert forall i :: 1 <= i < |accounts| ==> accounts[1..][i - 1] == accounts[i];
        }
        assert Encodable(accounts[0]);
        SplitFirstField(line, '\n', rest);
        assert line + "\n" + rest == line + ['\n'] + rest;
        line + "\n" + rest
      else line + "\n" + rest
  }

  /** A decoded line for each account, in order. */
  function DecodedAll(accounts: seq<Account>): (rs: seq<LineResult>)
    ensures |rs| == |accounts|
  {
    if |accounts| == 0 then [] else [Decoded(accounts[0])] + DecodedAll(accounts[1..])
  }

  lemma {:induction false} DecodeEncodedLines(accounts: seq<Account>, today: string)
    requires AllEncodable(accounts)
    ensures DecodeAll(EncodeAll(accounts), Decoder(today)) == DecodedAll(accounts)
  {
    if |accounts| > 0 {
      DecodeEncodedLines(accounts[1..], today);
      EncodeDecode(accounts[0], today);
    }
  }

  lemma {:induction false} CollectDecoded(accounts: seq<Account>)
    ensures Collect(DecodedAll(accounts) + [Blank]) == Success(accounts)
  {
    var rs := DecodedAll(accounts) + [Blank];
    if |accounts| == 0 {
      assert rs[1..] == [];
    } else {
      assert rs[0] == Decoded(accounts[0]);
      assert rs[1..] == DecodedAll(accounts[1..]) + [Blank];
      assert [accounts[0]] + accounts[1..] == accounts;
      CollectDecoded(accounts[1..]);
    }
  }

  /** Loading the records of some accounts, followed by an empty line, gives the accounts back. */
  lemma LoadEncoded(accounts: seq<Account>, today: string)
    requires AllEncodable(accounts)
    ensures LoadLines(EncodeAll(accounts) + [""], today) == Success(accounts)
  {
    DecodeAllAppend(EncodeAll(accounts), [""], Decoder(today));
    DecodeEncodedLines(accounts, today);
    assert DecodeAll([""], Decoder(today)) == [Blank];
    CollectDecoded(accounts);
  }

  /**
   `save_data` followed, at the next start, by `load_data`: the accounts come back
   as they were, in order.
   */
  method SaveThenLoad(accounts: seq<Account>, today: string) returns (loaded: Result<seq<Account>, Error>)
    requires AllEncodable(accounts)
    ensures loaded == Success(accounts)
  {
    var text := SaveText(accounts);
    LoadEncoded(accounts, today);
    loaded := Load(Some(text), today);
  }

  lemma {:induction false} CollectAppend(xs: seq<LineResult>, ys: seq<LineResult>)
    ensures var r := Collect(xs + ys);
            var a := Collect(xs);
            var b := Collect(ys);
            r == (if a.Failure? then a else if b.Failure? then b else Success(a.value + b.value))
    decreases |xs|
  {
    if |xs| == 0 {
      assert xs + ys == ys;
      if Collect(ys).Success? {
        assert [] + Collect(ys).value == Collect(ys).value;
      }
    } else {
      assert (xs + ys)[1..] == xs[1..] + ys by {
        assert forall i :: 0 <= i < |xs| + |ys| - 1 ==> (xs + ys)[1..][i] == (xs[1..] + ys)[i];
      }
      CollectAppend(xs[1..], ys);
      if xs[0].Decoded? && Collect(xs[1..]).Success? && Collect(ys).Success? {
        assert [xs[0].account] + (Collect(xs[1..]).value + Collect(ys).value)
            == ([xs[0].account] + Collect(xs[1..]).value) + Collect(ys).value;
      }
    }
  }

  lemma {:induction false} DecodeAllAppend(xs: seq<string>, ys: seq<string>, decode: string -> LineResult)
    ensures DecodeAll(xs + ys, decode) == DecodeAll(xs, decode) + DecodeAll(ys, decode)
    decreases |xs|
  {
    if |xs| == 0 {
      assert xs + ys == ys;
    } else {
      DecodeAllAppend(xs[1..], ys, decode);
      assert (xs + ys)[0] == xs[0];
      assert (xs + ys)[1..] == xs[1..] + ys;
      assert DecodeAll(xs + ys, decode) == [decode(xs[0])] + DecodeAll(xs[1..] + ys, decode);
      assert DecodeAll(xs, decode) == [decode(xs[0])] + DecodeAll(xs[1..], decode);
    }
  }

  /** Loading two blocks of lines one after the other is loading each block and concatenating. */
  lemma LoadLinesAppend(xs: seq<string>, ys: seq<string>, today: string)
    ensures var r := LoadLines(xs + ys, today);
            var a := LoadLines(xs, today);
            var b := LoadLines(ys, today);
            r == (if a.Failure? then a else if b.Failure? then b else Success(a.value + b.value))
  {
    DecodeAllAppend(xs, ys, Decoder(today));
    CollectAppend(DecodeAll(xs, Decoder(today)), DecodeAll(ys, Decoder(today)));
  }

  /** A line the decoder skips has no effect on the collected accounts, wherever it stands. */
  lemma SkippedLineIsInvisible(before: seq<string>, bad: string, after: seq<string>,
                               decode: string -> LineResult)
    requires decode(bad) == Blank || decode(bad) == Short
    ensures Collect(DecodeAll(before + [bad] + after, decode)) == Collect(DecodeAll(before + after, decode))
  {
    var b := DecodeAll(before, decode);
    var a := DecodeAll(after, decode);
    DecodeAllAppend(before + [bad], after, decode);
    DecodeAllAppend(before, [bad], decode);
    DecodeAllAppend(before, after, decode);
    assert DecodeAll([bad], decode) == [decode(bad)] by {
      assert [bad][1..] == [];
    }
    CollectAppend(b + [decode(bad)], a);
    CollectAppend(b, [decode(bad)]);
    CollectAppend(b, a);
    assert Collect([decode(bad)]) == Success([]) by {
      assert [decode(bad)][1..] == [];
    }
    if Collect(b).Success? {
      assert Collect(b).value + [] == Collect(b).value;
    }
  }

  /**
   A line of fewer than 9 comma-separated fields (a blank line among them) is skipped
   wherever it stands: the load is as if it were not there.
   */
  lemma SkipsMalformedLine(before: seq<string>, bad: string, after: seq<string>, today: string)
    requires |Split(Strip(bad), ',')| < MIN_FIELDS
    ensures LoadLines(before + [bad] + after, today) == LoadLines(before + after, today)
  {
    var d := DecodeLine(bad, today);
    assert d == Blank || d == Short;
    assert Decoder(today)(bad) == d;
    SkippedLineIsInvisible(before, bad, after, Decoder(today));
  }

  // ---------------------------------------------------------------------------
  // find_account
  // ---------------------------------------------------------------------------

  /** The position of the first account with the given number, if any. */
  function FindIndex(accounts: seq<Account>, accNum: string): (r: Option<nat>)
    ensures r.Some? ==> r.value < |accounts| && accounts[r.value].accNum == accNum
    ensures r.Some? ==> forall j :: 0 <= j < r.value ==> accounts[j].accNum != accNum
    ensures r.None? <==> forall j :: 0 <= j < |accounts| ==> accounts[j].accNum != accNum
  {
    if |accounts| == 0 then None
    else if accounts[0].accNum == accNum then Some(0)
    else match FindIndex(accounts[1..], accNum)
      case None => None
      case Some(k) => Some(k + 1)
  }

  /** `find_account`: the first account with the given number, or `None`. */
  function FindAccount(accounts: seq<Account>, accNum: string): (r: Option<Account>)
    ensures r.Some? ==> r.value in accounts && r.value.accNum == accNum
    ensures r.Some? ==> exists i :: 0 <= i < |accounts| && accounts[i] == r.value
                                    && forall j :: 0 <= j < i ==> accounts[j].accNum != accNum
    ensures r.None? <==> forall a :: a in accounts ==> a.accNum != accNum
  {
    match FindIndex(accounts, accNum)
    case None => None
    case Some(i) => Some(accounts[i])
  }

  // ---------------------------------------------------------------------------
  // create_new_account
  // ---------------------------------------------------------------------------

  /** The answers `create_new_account` reads, as typed. */
  datatype Form = Form(
    name: string,
    fname: string,
    cnic: string,
    phone: string,
    email: string,
    typeChoice: string,
    deposit: string,
    pin: string)

  /** Both names pass `validate_name`. */
  predicate NamesAccepted(f: Form) {
    ValidateName(f.name).Success? && ValidateName(f.fname).Success?
  }

  /** The names, the 13-digit CNIC and the 11-digit phone number all pass. */
  predicate IdentityAccepted(f: Form) {
    && NamesAccepted(f)
    && ValidateDigits(f.cnic, "CNIC", Some(13)).Success?
    && ValidateDigits(f.phone, "Phone", Some(11)).Success?
  }

  /** Every check of the registration form passes. */
  predicate FormAccepted(f: Form) {
    && IdentityAccepted(f)
    && ParseWholeFloat(f.deposit).Some? && ParseWholeFloat(f.deposit).value >= MIN_DEPOSIT
    && ValidateDigits(f.pin, "PIN", Some(4)).Success?
    && f.typeChoice in {"1", "2"}
  }

  /**
   `create_new_account`: checks the answers in the order the source reads them, and
   appends the new account (numbered `accNum`, tracking from `today`) to the ledger.
   The account type choice is read early but checked last.
   */
  function CreateNewAccount(accounts: seq<Account>, f: Form, accNum: string, today: string)
    : (r: Result<seq<Account>, Error>)
    ensures r.Success? <==> FormAccepted(f)
    ensures r.Success? ==> |r.value| == |accounts| + 1 && r.value[..|accounts|] == accounts
    ensures r.Success? ==>
              var a := r.value[|accounts|];
              && a.accNum == accNum && a.name == f.name && a.fname == f.fname
              && a.cnic == f.cnic && |a.cnic| == 13 && a.phone == f.phone && |a.phone| == 11
              && a.email == f.email && a.pin == f.pin && |a.pin| == 4
              && ParseWholeFloat(f.deposit) == Some(a.balance) && a.balance >= MIN_DEPOSIT
              && (a.accType == Savings <==> f.typeChoice == "1")
              && a.lastWithdrawDate == today && a.dailyWithdrawn == 0
              && Invariant(a)
    ensures ValidateName(f.name).Failure? ==> r == Failure(ValidateName(f.name).error)
    ensures ValidateName(f.name).Success? && ValidateName(f.fname).Failure?
            ==> r == Failure(ValidateName(f.fname).error)
    ensures NamesAccepted(f) && ValidateDigits(f.cnic, "CNIC", Some(13)).Failure?
            ==> r == Failure(ValidateDigits(f.cnic, "CNIC", Some(13)).error)
    ensures NamesAccepted(f) && ValidateDigits(f.cnic, "CNIC", Some(13)).Success?
            && ValidateDigits(f.phone, "Phone", Some(11)).Failure?
            ==> r == Failure(ValidateDigits(f.phone, "Phone", Some(11)).error)
    ensures IdentityAccepted(f) && ParseWholeFloat(f.deposit).None? ==> r == Failure(NotANumber(f.deposit))
    ensures IdentityAccepted(f) && ParseWholeFloat(f.deposit).Some? && ParseWholeFloat(f.deposit).value < MIN_DEPOSIT
            ==> r == Failure(BelowMinimumDeposit)
    ensures IdentityAccepted(f) && ParseWholeFloat(f.deposit).Some? && ParseWholeFloat(f.deposit).value >= MIN_DEPOSIT
            && ValidateDigits(f.pin, "PIN", Some(4)).Failure?
            ==> r == Failure(ValidateDigits(f.pin, "PIN", Some(4)).error)
    ensures FormAccepted(f.(typeChoice := "1")) && f.typeChoice !in {"1", "2"} ==> r == Failure(InvalidAccountType)
  {
    var name := ValidateName(f.name);
    if name.Failure? then Failure(name.error) else
    var fname := ValidateName(f.fname);
    if fname.Failure? then Failure(fname.error) else
    var cnic := ValidateDigits(f.cnic, "CNIC", Some(13));
    if cnic.Failure? then Failure(cnic.error) else
    var phone := ValidateDigits(f.phone, "Phone", Some(11));
    if phone.Failure? then Failure(phone.error) else
    match ParseWholeFloat(f.deposit)
    case None => Failure(NotANumber(f.deposit))
    case Some(balance) =>
      if balance < MIN_DEPOSIT then Failure(BelowMinimumDeposit) else
      var pin := ValidateDigits(f.pin, "PIN", Some(4));
      if pin.Failure? then Failure(pin.error) else
      if f.typeChoice == "1" then
        Success(accounts + [NewAccount(accNum, name.value, fname.value, cnic.value, phone.value,
                                       f.email, balance, pin.value, Savings, today)])
      else if f.typeChoice == "2" then
        Success(accounts + [NewAccount(accNum, name.value, fname.value, cnic.value, phone.value,
                                       f.email, balance, pin.value, Current, today)])
      else Failure(InvalidAccountType)
  }

  /** An opening deposit of 499 is refused and one of 500 accepted, all else being valid. */
  lemma MinimumOpeningDeposit(accounts: seq<Account>, f: Form, accNum: string, today: string)
    requires FormAccepted(f)
    ensures CreateNewAccount(accounts, f.(deposit := "499"), accNum, today) == Failure(BelowMinimumDeposit)
    ensures CreateNewAccount(accounts, f.(deposit := "500"), accNum, today).Success?
  {
    assert DigitsValue("499") == 499 by {
      assert "499"[..2] == "49" && "49"[..1] == "4" && "4"[..0] == "";
    }
    assert DigitsValue("500") == 500 by {
      assert "500"[..2] == "50" && "50"[..1] == "5" && "5"[..0] == "";
    }
  }

  /**
   Account numbers are not checked for uniqueness: a new account whose number is
   already in the ledger can never be found, since lookup stops at the older one.
   Otherwise the new account is the one found.
   */
  lemma NewAccountLookup(accounts: seq<Account>, f: Form, accNum: string, today: string)
    requires CreateNewAccount(accounts, f, accNum, today).Success?
    ensures var ledger := CreateNewAccount(accounts, f, accNum, today).value;
            FindIndex(ledger, accNum) ==
              (if FindIndex(accounts, accNum).Some? then FindIndex(accounts, accNum) else Some(|accounts|))
  {
    var ledger := CreateNewAccount(accounts, f, accNum, today).value;
    assert ledger == accounts + [ledger[|accounts|]];
    FindIndexAppend(accounts, ledger[|accounts|], accNum);
  }

  /** Looking up a number after appending an account finds an earlier match first. */
  lemma {:induction false} FindIndexAppend(accounts: seq<Account>, a: Account, accNum: string)
    ensures FindIndex(accounts + [a], accNum) ==
              if FindIndex(accounts, accNum).Some? then FindIndex(accounts, accNum)
              else if a.accNum == accNum then Some(|accounts|) else None
  {
    var s := accounts + [a];
    var r := FindIndex(s, accNum);
    var q := FindIndex(accounts, accNum);
    if q.Some? {
      assert s[q.value] == accounts[q.value];
    }
    if r.Some? && r.value < |accounts| {
      assert s[r.value] == accounts[r.value];
    }
    assert s[|accounts|] == a;
  }
}
