/**
 The C++ ledger's store, `bank_data.txt`: `saveData` writes one line per account in
 use, its five fields separated by single spaces, and `loadData` reads the file back
 with `>>`, which skips any whitespace and reads one word per field.
 */
module CppStore {
  import opened Wrappers
  import opened Text
  import opened Numerals
  import opened CppTable

  /** Words separated by single spaces and ended by a line break, as `<< " " <<` and `endl` write them. */
  function Line(ws: seq<string>): string
    requires |ws| > 0
    decreases |ws|
  {
    if |ws| == 1 then ws[0] + "\n" else ws[0] + " " + Line(ws[1..])
  }

  function Fields(r: Record): seq<string> {
    [r.accNum, r.name, r.surname, IntToText(r.balance), IntToText(r.password)]
  }

  /** One line of the store. */
  function RecordLine(r: Record): string {
    Line(Fields(r))
  }

  /** The store holding `rs`, one line each, in order. */
  function RecordsText(rs: seq<Record>): string
    decreases |rs|
  {
    if |rs| == 0 then "" else RecordLine(rs[0]) + RecordsText(rs[1..])
  }

  /**
   A record `>>` reads back whole: each text field is a non-empty word, and the
   password fits the `int` it was read from, as every `Acc_password` does.
   */
  predicate Storable(r: Record) {
    && IsWord(r.accNum) && IsWord(r.name) && IsWord(r.surname)
    && INT_MIN <= r.password <= INT_MAX
  }

  predicate StorableTable(t: Table)
    requires Valid(t)
  {
    forall i :: 0 <= i < t.total ==> Storable(At(t, i))
  }

  /** The range of a 32-bit `int`. */
  const INT_MIN: int := -0x8000_0000
  const INT_MAX: int := 0x7FFF_FFFF

  /**
   What `>>` takes from a word for a number field: an optional `+` or `-`, then
   digits, making up the whole word.
   */
  function ReadNumber(w: string): (r: Option<int>)
    ensures r.Some? <==> ParseInt(w).Some? || (|w| > 1 && w[0] == '+' && IsDigits(w[1..]))
    ensures ParseInt(w).Some? ==> r == ParseInt(w)
    ensures r.Some? && |w| > 1 && w[0] == '+' ==> ParseNat(w[1..]) == Some(r.value)
  {
    if |w| > 0 && w[0] == '+' then
      match ParseNat(w[1..])
      case Some(v) => Some(v as int)
      case None => None
    else ParseInt(w)
  }

  /** `>>` into an `int`: a number that does not fit 32 bits fails the stream. */
  function ReadInt(w: string): (r: Option<int>)
    ensures r.Some? <==> ReadNumber(w).Some? && INT_MIN <= ReadNumber(w).value <= INT_MAX
    ensures r.Some? ==> r == ReadNumber(w)
  {
    match ReadNumber(w)
    case Some(v) => if INT_MIN <= v <= INT_MAX then Some(v) else None
    case None => None
  }

  /** `>>` reads back the text `<<` writes for a number, and for an `int` when it fits. */
  lemma ReadWrittenNumber(n: int)
    ensures ReadNumber(IntToText(n)) == Some(n)
    ensures INT_MIN <= n <= INT_MAX ==> ReadInt(IntToText(n)) == Some(n)
  {
    IntRoundTrip(n);
  }

  /**
   What the `while (file >> ...)` condition reads from the words of the file: five
   words per record, as long as the fourth is a number (the `float` balance) and the
   fifth an `int` (the password); the first group that is incomplete or does not read
   ends the loop.
   */
  function ReadRecords(words: seq<string>): (rs: seq<Record>)
    ensures 5 * |rs| <= |words|
    decreases |words|
  {
    if |words| < 5 then []
    else
      match (ReadNumber(words[3]), ReadInt(words[4]))
      case (Some(balance), Some(password)) =>
        [Record(words[0], words[1], words[2], balance, password)] + ReadRecords(words[5..])
      case _ => []
  }

  /**
   A number written with a leading `+` reads as that number, and a record whose
   password does not fit 32 bits (3000000000, say) ends the load before it.
   */
  lemma {:induction false} ReadRecordsNumbers(balance: nat, password: int)
    ensures ReadNumber("+" + NatToText(balance)) == Some(balance)
    ensures ReadRecords(["1", "a", "b", "+" + NatToText(balance), IntToText(password)])
            == (if INT_MIN <= password <= INT_MAX then [Record("1", "a", "b", balance, password)] else [])
  {
    var w := "+" + NatToText(balance);
    assert w[1..] == NatToText(balance);
    NatRoundTrip(balance);
    ReadWrittenNumber(password);
    var ws := ["1", "a", "b", w, IntToText(password)];
    assert ws[5..] == [];
  }

  /** The loop condition of `loadData` at word `k`: a whole record is there to read. */
  predicate RecordAt(words: seq<string>, k: nat) {
    k + 5 <= |words| && ReadNumber(words[k + 3]).Some? && ReadInt(words[k + 4]).Some?
  }

  function RecordFrom(words: seq<string>, k: nat): Record
    requires RecordAt(words, k)
  {
    Record(words[k], words[k + 1], words[k + 2], ReadNumber(words[k + 3]).value, ReadInt(words[k + 4]).value)
  }

  /** Reading from word `k` yields the record there and then whatever follows it, or nothing. */
  lemma ReadRecordsFrom(words: seq<string>, k: nat)
    requires k <= |words|
    ensures RecordAt(words, k) ==> ReadRecords(words[k..]) == [RecordFrom(words, k)] + ReadRecords(words[k + 5..])
    ensures !RecordAt(words, k) ==> ReadRecords(words[k..]) == []
  {
    var w := words[k..];
    if |w| >= 5 {
      assert w[3] == words[k + 3] && w[4] == words[k + 4];
      assert w[5..] == words[k + 5..];
      assert w[..3] == words[k..k + 3];
    }
  }

  /** One turn of the `loadData` loop keeps "records so far, then the rest of the file" equal to the whole. */
  lemma ReadStep(words: seq<string>, k: nat, slots: seq<Record>)
    requires k <= |words| && RecordAt(words, k)
    requires ReadRecords(words) == slots + ReadRecords(words[k..])
    ensures ReadRecords(words) == (slots + [RecordFrom(words, k)]) + ReadRecords(words[k + 5..])
  {
    ReadRecordsFrom(words, k);
  }

  // ---------------------------------------------------------------------------
  // saveData
  // ---------------------------------------------------------------------------

  lemma {:induction false} RecordsTextAppend(rs: seq<Record>, r: Record)
    ensures RecordsText(rs + [r]) == RecordsText(rs) + RecordLine(r)
    decreases |rs|
  {
    if |rs| == 0 {
      assert rs + [r] == [r];
      assert RecordsText([r]) == RecordLine(r) + RecordsText([]);
    } else {
      assert (rs + [r])[1..] == rs[1..] + [r];
      RecordsTextAppend(rs[1..], r);
    }
  }

  /** The words of a line are the words it was made of. */
  lemma {:induction false} LineWords(ws: seq<string>, rest: string)
    requires |ws| > 0 && forall i :: 0 <= i < |ws| ==> IsWord(ws[i])
    ensures Words(Line(ws) + rest) == ws + Words(rest)
    decreases |ws|
  {
    if |ws| == 1 {
      assert Line(ws) + rest == ws[0] + ['\n'] + rest;
      WordsOfWordThenSpace(ws[0], '\n', rest);
    } else {
      var tail := Line(ws[1..]) + rest;
      assert Line(ws) + rest == ws[0] + [' '] + tail;
      WordsOfWordThenSpace(ws[0], ' ', tail);
      LineWords(ws[1..], rest);
      assert ws == [ws[0]] + ws[1..];
    }
  }

  /** One line of the store, followed by any text, reads back as its record and then that text's records. */
  lemma ReadLineThen(r: Record, tail: string)
    requires Storable(r)
    ensures |Words(RecordLine(r) + tail)| == 5 + |Words(tail)|
    ensures ReadRecords(Words(RecordLine(r) + tail)) == [r] + ReadRecords(Words(tail))
  {
    IntTextIsPlain(r.balance);
    IntTextIsPlain(r.password);
    LineWords(Fields(r), tail);
    ReadWrittenNumber(r.balance);
    ReadWrittenNumber(r.password);
    var ws := Words(RecordLine(r) + tail);
    assert ws[5..] == Words(tail);
    assert ws[3] == IntToText(r.balance) && ws[4] == IntToText(r.password);
  }

  /** Reading one record and then a run of records reads them all. */
  lemma ReadChain(ws: seq<string>, tailWords: seq<string>, restWords: seq<string>, r: Record, more: seq<Record>)
    requires |ws| == 5 + |tailWords| && ReadRecords(ws) == [r] + ReadRecords(tailWords)
    requires |tailWords| == 5 * |more| + |restWords| && ReadRecords(tailWords) == more + ReadRecords(restWords)
    ensures |ws| == 5 * (1 + |more|) + |restWords|
    ensures ReadRecords(ws) == ([r] + more) + ReadRecords(restWords)
  {
  }

  /**
   Reading a store followed by any further text yields the records written, then
   whatever that text holds: five words per record come first.
   */
  lemma {:induction false} ReadBackThen(rs: seq<Record>, rest: string)
    requires forall i :: 0 <= i < |rs| ==> Storable(rs[i])
    ensures |Words(RecordsText(rs) + rest)| == 5 * |rs| + |Words(rest)|
    ensures ReadRecords(Words(RecordsText(rs) + rest)) == rs + ReadRecords(Words(rest))
    decreases |rs|
  {
    if |rs| == 0 {
      assert RecordsText(rs) + rest == rest;
    } else {
      var r, more := rs[0], rs[1..];
      var tail := RecordsText(more) + rest;
      assert RecordsText(rs) + rest == RecordLine(r) + tail;
      ReadLineThen(r, tail);
      ReadBackThen(more, rest);
      ReadChain(Words(RecordLine(r) + tail), Words(tail), Words(rest), r, more);
      assert rs == [r] + more;
    }
  }

  /** Reading a store back yields exactly the records written, when their fields are words. */
  lemma ReadBack(rs: seq<Record>)
    requires forall i :: 0 <= i < |rs| ==> Storable(rs[i])
    ensures ReadRecords(Words(RecordsText(rs))) == rs
  {
    ReadBackThen(rs, "");
    assert RecordsText(rs) + "" == RecordsText(rs);
  }

  /**
   `saveData`: the text of every account in use, in slot order; read back, it gives
   those accounts again when their fields are words.
   */
  method SaveData(t: Table) returns (text: string)
    requires Valid(t)
    ensures text == RecordsText(Records(t))
    ensures StorableTable(t) ==> ReadRecords(Words(text)) == Records(t)
  {
    text := "";
    var i := 0;
    while i < t.total
      invariant 0 <= i <= t.total
      invariant text == RecordsText(Records(t)[..i])
    {
      RecordsTextAppend(Records(t)[..i], At(t, i));
      assert Records(t)[..i + 1] == Records(t)[..i] + [At(t, i)];
      text := text + RecordLine(At(t, i));
      i := i + 1;
    }
    assert Records(t)[..t.total] == Records(t);
    if StorableTable(t) {
      ReadBack(Records(t));
    }
  }

  // ---------------------------------------------------------------------------
  // loadData
  // ---------------------------------------------------------------------------

  /**
   The `loadData` loop as written: record k of the file is stored in slot k for every
   whole record the file holds, with nothing that stops at the arrays' end. When a word
   is left over after the whole records, the failing condition has already read it into
   the account-number array at the next slot, `partial`.
   */
  method LoadAsWritten(file: string) returns (slots: seq<Record>, partial: bool)
    ensures slots == ReadRecords(Words(file))
    ensures partial <==> 5 * |slots| < |Words(file)|
  {
    var words := Words(file);
    slots := [];
    var k := 0;
    assert words[0..] == words;
    while RecordAt(words, k)
      invariant k == 5 * |slots| <= |words|
      invariant ReadRecords(words) == slots + ReadRecords(words[k..])
      decreases |words| - k
    {
      ReadStep(words, k, slots);
      slots := slots + [RecordFrom(words, k)];
      k := k + 5;
    }
    ReadRecordsFrom(words, k);
    partial := k < |words|;
  }

  /**
   A store of 101 well-formed records (an edited or foreign file; the program itself
   never holds more than 100 accounts) makes the loop as written store a record in
   slot 100, one past the end of every array.
   */
  lemma OverlongStoreOverrunsArrays()
    ensures var text := RecordsText(seq(CAPACITY + 1, _ => Record("1", "a", "b", 0, 1000)));
            |ReadRecords(Words(text))| == CAPACITY + 1
  {
    var rs := seq(CAPACITY + 1, _ => Record("1", "a", "b", 0, 1000));
    assert forall i :: 0 <= i < |rs| ==> Storable(rs[i]);
    ReadBack(rs);
  }

  /**
   A store of 100 well-formed records followed by one stray word yields 100 whole
   records and a word left over, so the loop as written reads that word into slot 100,
   one past the end of `Acc_num`.
   */
  lemma StrayWordOverrunsArrays()
    ensures var text := RecordsText(seq(CAPACITY, _ => Record("1", "a", "b", 0, 1000))) + "x";
            && |ReadRecords(Words(text))| == CAPACITY
            && 5 * CAPACITY < |Words(text)|
  {
    var rs := seq(CAPACITY, _ => Record("1", "a", "b", 0, 1000));
    assert forall i :: 0 <= i < |rs| ==> Storable(rs[i]);
    ReadBackThen(rs, "x");
    assert WordLength("x") == 1;
    assert "x"[..1] == "x" && "x"[1..] == "";
    assert Words("x") == ["x"];
  }

  /**
   `loadData`, bounded by the arrays: when the file is missing nothing changes;
   otherwise the table holds the file's leading whole records, at most CAPACITY of them.
   */
  method LoadData(t: Table, file: Option<string>) returns (t': Table)
    requires Valid(t)
    ensures Valid(t')
    ensures file.None? ==> t' == t
    ensures file.Some? ==>
              var rs := ReadRecords(Words(file.value));
              && t'.total == (if |rs| < CAPACITY then |rs| else CAPACITY)
              && Records(t') == rs[..t'.total]
  {
    if file.None? {
      return t;
    }
    var words := Words(file.value);
    t' := t.(total := 0);
    var k := 0;
    assert words[0..] == words;
    while t'.total < CAPACITY && RecordAt(words, k)
      invariant Valid(t')
      invariant k <= |words|
      invariant ReadRecords(words) == Records(t') + ReadRecords(words[k..])
      decreases |words| - k
    {
      ReadStep(words, k, Records(t'));
      var r := RecordFrom(words, k);
      ghost var before := Records(t');
      t' := Put(t', t'.total, r).(total := t'.total + 1);
      assert Records(t') == before + [r];
      k := k + 5;
    }
    ReadRecordsFrom(words, k);
    var rs := ReadRecords(words);
    assert rs[..t'.total] == Records(t');
  }

  /** Saving the table and loading the store into a freshly started program restores every account. */
  method SaveThenLoad(t: Table) returns (t': Table)
    requires Valid(t) && StorableTable(t)
    ensures Valid(t') && Records(t') == Records(t)
  {
    var text := SaveData(t);
    t' := LoadData(Initial(), Some(text));
  }
}
