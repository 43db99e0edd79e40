/**
 One Python ledger record: `Account.to_file_string` writes the eleven fields of an
 account joined by commas, and the loop body of `BankManager.load_data` turns one
 line back into an account, tolerating short lines and unknown type tags.
 */
module RecordCodec {
  import opened Wrappers
  import opened Text
  import opened Numerals
  import opened Errors
  import opened Accounts

  /** Fewer fields than this and a line is ignored. */
  const MIN_FIELDS: nat := 9
  /** With exactly this many fields the daily tracking is restored from the line. */
  const FULL_FIELDS: nat := 11

  /** The fields of a record, in file order; the two amounts are `float`s, written as such. */
  function Fields(a: Account): (fs: seq<string>)
    ensures |fs| == FULL_FIELDS
  {
    [a.accNum, a.name, a.fname, a.cnic, a.phone, a.email, WholeFloatText(a.balance), a.pin,
     TypeTag(a.accType), a.lastWithdrawDate, WholeFloatText(a.dailyWithdrawn)]
  }

  /**
   `to_file_string`: the fields joined by commas. An encodable account makes one line
   that splits back into its fields.
   */
  function Encode(a: Account): (r: string)
    ensures Encodable(a) ==> '\n' !in r && Split(r, ',') == Fields(a)
  {
    var line := Join(Fields(a), ',');
    if Encodable(a) then
      JoinAvoids(Fields(a), ',', '\n');
      SplitJoin(Fields(a), ',');
      line
    else line
  }

  /** What the loader makes of one line. */
  datatype LineResult =
    | Blank                     // nothing but whitespace: skipped
    | Short                     // fewer than 9 fields: skipped
    | BadNumber(text: string)   // float() raises, and the exception ends the whole load
    | Decoded(account: Account)

  /** The factory: "Current" selects the Current variant, anything else a Savings account. */
  function TypeOfTag(tag: string): (t: AccountType)
    ensures t == Current <==> tag == TypeTag(Current)
  {
    if tag == "Current" then Current else Savings
  }

  /**
   The fields of a line of at least 9 fields, made into an account. Balance text is
   read before the type tag; the tracking fields are restored only from a line of
   exactly 11 fields and otherwise start fresh at `today`, as the constructors leave them.
   */
  function DecodeFields(data: seq<string>, today: string): (r: LineResult)
    requires |data| >= MIN_FIELDS
    ensures r.Decoded? || r.BadNumber?
    ensures r.BadNumber? <==> ParseWholeFloat(data[6]).None? || (|data| == FULL_FIELDS && ParseWholeFloat(data[10]).None?)
    ensures r.BadNumber? && ParseWholeFloat(data[6]).None? ==> r.text == data[6]
    ensures r.BadNumber? && ParseWholeFloat(data[6]).Some? ==> r.text == data[10]
    ensures r.Decoded? ==>
              && r.account.accNum == data[0] && r.account.name == data[1]
              && r.account.fname == data[2] && r.account.cnic == data[3]
              && r.account.phone == data[4] && r.account.email == data[5]
              && ParseWholeFloat(data[6]) == Some(r.account.balance)
              && r.account.pin == data[7]
              && (r.account.accType == Current <==> data[8] == "Current")
              && (|data| == FULL_FIELDS ==>
                    r.account.lastWithdrawDate == data[9] && ParseWholeFloat(data[10]) == Some(r.account.dailyWithdrawn))
              && (|data| != FULL_FIELDS ==> r.account.lastWithdrawDate == today && r.account.dailyWithdrawn == 0)
  {
    match ParseWholeFloat(data[6])
    case None => BadNumber(data[6])
    case Some(balance) =>
      var acc := NewAccount(data[0], data[1], data[2], data[3], data[4], data[5], balance,
                            data[7], TypeOfTag(data[8]), today);
      if |data| == FULL_FIELDS then
        match ParseWholeFloat(data[10])
        case None => BadNumber(data[10])
        case Some(daily) => Decoded(acc.(lastWithdrawDate := data[9], dailyWithdrawn := daily))
      else Decoded(acc)
  }

  /**
   The body of the `load_data` loop for one line: the line is stripped, skipped when
   nothing is left or when it has fewer than 9 comma-separated fields, and otherwise
   made into an account.
   */
  function DecodeLine(line: string, today: string): (r: LineResult)
    ensures r == Blank <==> Strip(line) == ""
    ensures r == Short <==> Strip(line) != "" && |Split(Strip(line), ',')| < MIN_FIELDS
    ensures r.Decoded? || r.BadNumber? <==> |Split(Strip(line), ',')| >= MIN_FIELDS
    ensures |Split(Strip(line), ',')| >= MIN_FIELDS ==> r == DecodeFields(Split(Strip(line), ','), today)
  {
    var s := Strip(line);
    if s == "" then Blank
    else
      var data := Split(s, ',');
      if |data| < MIN_FIELDS then Short else DecodeFields(data, today)
  }

  /**
   An account survives the comma format when no field holds a comma or a line break
   and the account number does not start with whitespace (which `strip()` would eat).
   */
  predicate Encodable(a: Account) {
    && (forall i :: 0 <= i < FULL_FIELDS ==> ',' !in Fields(a)[i] && '\n' !in Fields(a)[i])
    && (|a.accNum| == 0 || !IsPySpace(a.accNum[0]))
  }

  /** The text of an encodable record starts and ends with something `strip()` keeps. */
  lemma EncodeIsStripped(a: Account)
    requires Encodable(a)
    ensures Strip(Encode(a)) == Encode(a)
  {
    var fs := Fields(a);
    var e := Encode(a);
    assert |e| > 0 && !IsPySpace(e[0]) by {
      assert e == fs[0] + [','] + Join(fs[1..], ',');
      assert e[0] == (if |fs[0]| > 0 then fs[0][0] else ',');
    }
    assert !IsPySpace(e[|e| - 1]) by {
      var d := WholeFloatText(a.dailyWithdrawn);
      WholeFloatTextIsPlain(a.dailyWithdrawn);
      JoinEndsWithLast(fs, ',');
      assert fs[|fs| - 1] == d;
      assert e[|e| - 1] == d[|d| - 1];
    }
  }

  /** A join of at least two fields ends with the last field. */
  lemma {:induction false} JoinEndsWithLast(fs: seq<string>, d: char)
    requires |fs| >= 2
    ensures var j := Join(fs, d); |j| >= |fs[|fs| - 1]| && j[|j| - |fs[|fs| - 1]|..] == fs[|fs| - 1]
  {
    if |fs| > 2 {
      JoinEndsWithLast(fs[1..], d);
    }
  }

  /** Encoding an account and decoding the line gives the same account back. */
  lemma EncodeDecode(a: Account, today: string)
    requires Encodable(a)
    ensures DecodeLine(Encode(a), today) == Decoded(a)
  {
    var fs := Fields(a);
    EncodeIsStripped(a);
    SplitJoin(fs, ',');
    WholeFloatRoundTrip(a.balance);
    WholeFloatRoundTrip(a.dailyWithdrawn);
    assert Encode(a) != "" by {
      assert |Encode(a)| >= |fs[0]| + 1;
    }
  }

  /** An unrecognised type tag is read as a Savings account rather than refused. */
  lemma UnknownTagIsSavings(line: string, today: string)
    requires DecodeLine(line, today).Decoded?
    requires Split(Strip(line), ',')[8] !in {"Savings", "Current"}
    ensures DecodeLine(line, today).account.accType == Savings
  {
  }
}
