/** The Lendy (formerly Saving Stream) statement importer: each CSV row is
    classified by its exact `Transaction type`; balance rows are skipped and
    every other row becomes one transaction between the cash account and the
    classified account. */
module Lendy {
  import opened Wrappers
  import opened Calendar
  import opened Text
  import opened Ledger
  import opened Rules

  /** The accounts the importer posts to, supplied when it is configured. */
  datatype Config = Config(
    cashAccount: Account,
    loanAccount: Account,
    interestAccount: Account,
    transferAccount: Account)

  /** One statement row with its cells parsed. The optional cells are None
      when blank; the loan part id is kept as text, blank when absent. */
  datatype Row = Row(
    txnDate: Day,
    txnType: string,
    loanPartId: string,
    loanPartValue: Option<real>,
    loanPartDetail: string,
    startDate: Option<Day>,
    endDate: Option<Day>,
    txnAmount: real)

  const Pound: Currency := "GBP"
  const TransferNarration := "Transfer"
  const Unknown: Account := "Unknown"
  const LinkPrefix := "loan_"

  /** Row types that restate a balance rather than move money. */
  const BalanceTypes: seq<string> := ["Opening Balance", "Available Balance"]
  const LoanTypes: seq<string> := ["Loan part fund", "Capital repayment", "Loan part sale"]
  const TransferTypes: seq<string> := ["Deposit", "Withdrawal"]
  const InterestTypes: seq<string> := ["Interest"]

  const TypeKey := "type"
  const StartDateKey := "start_date"
  const EndDateKey := "end_date"
  const LoanPartValueKey := "loan_part_value"

  predicate IsSkipped(row: Row) {
    row.txnType in BalanceTypes
  }

  // ---------------------------------------------------------------------
  // Classification by exact type

  datatype Category = LoanMovement | Transfer | Interest | Unrecognised

  const CategoryRules: seq<Rule<Category>> := [
    Rule(OneOf(LoanTypes), AnySign, LoanMovement),
    Rule(OneOf(TransferTypes), AnySign, Transfer),
    Rule(OneOf(InterestTypes), AnySign, Interest)
  ]

  /** The classification ladder, its conditions in the importer's order. */
  function Categorise(txnType: string): Category {
    if txnType == "Loan part fund" || txnType == "Capital repayment" || txnType == "Loan part sale" then LoanMovement
    else if txnType == "Deposit" || txnType == "Withdrawal" then Transfer
    else if txnType == "Interest" then Interest
    else Unrecognised
  }

  /** The ladder agrees with the first-match-wins rule table, whose rules look
      at the type alone. */
  lemma CategoriseIsFirstMatch(txnType: string, amount: real)
    ensures Categorise(txnType) == Evaluate(CategoryRules, Unrecognised, txnType, amount)
  {
    var rules := CategoryRules;
    assert Fires(rules[0], txnType, amount) <==> txnType in LoanTypes;
    assert Fires(rules[1], txnType, amount) <==> txnType in TransferTypes;
    assert Fires(rules[2], txnType, amount) <==> txnType in InterestTypes;
    match Categorise(txnType)
    case LoanMovement => EvaluateFirst(rules, Unrecognised, txnType, amount, 0);
    case Transfer => EvaluateFirst(rules, Unrecognised, txnType, amount, 1);
    case Interest => EvaluateFirst(rules, Unrecognised, txnType, amount, 2);
    case Unrecognised => EvaluateNone(rules, Unrecognised, txnType, amount);
  }

  function SecondAccount(cfg: Config, c: Category): Account {
    match c
    case LoanMovement => cfg.loanAccount
    case Transfer => cfg.transferAccount
    case Interest => cfg.interestAccount
    case Unrecognised => Unknown
  }

  // ---------------------------------------------------------------------
  // Metadata

  /** The row's type, then each optional cell that is filled in. */
  function Metadata(row: Row): (m: Meta)
    ensures |m| >= 1 && m[0] == (TypeKey, Str(row.txnType))
    ensures DistinctKeys(m)
    ensures HasKey(m, StartDateKey) <==> row.startDate.Some?
    ensures HasKey(m, EndDateKey) <==> row.endDate.Some?
    ensures HasKey(m, LoanPartValueKey) <==> row.loanPartValue.Some?
    ensures |m| == 1 + (if row.startDate.Some? then 1 else 0) + (if row.endDate.Some? then 1 else 0)
                     + (if row.loanPartValue.Some? then 1 else 0)
  {
    var start := match row.startDate case Some(d) => [(StartDateKey, When(d))] case None => [];
    var end := match row.endDate case Some(d) => [(EndDateKey, When(d))] case None => [];
    var value := match row.loanPartValue case Some(v) => [(LoanPartValueKey, Num(v))] case None => [];
    var m := [(TypeKey, Str(row.txnType))] + start + end + value;
    assert forall i :: 0 <= i < |m| ==> m[i].0 in {TypeKey, StartDateKey, EndDateKey, LoanPartValueKey};
    assert start != [] ==> m[1].0 == StartDateKey;
    assert end != [] ==> m[1 + |start|].0 == EndDateKey;
    assert value != [] ==> m[1 + |start| + |end|].0 == LoanPartValueKey;
    m
  }

  /** Each key holds its cell's value: the type text, the start and end
      dates, and the loan part value. */
  lemma MetadataValues(row: Row)
    ensures var m := Metadata(row);
    && Binds(m, TypeKey, Str(row.txnType))
    && (row.startDate.Some? ==> Binds(m, StartDateKey, When(row.startDate.value)))
    && (row.endDate.Some? ==> Binds(m, EndDateKey, When(row.endDate.value)))
    && (row.loanPartValue.Some? ==> Binds(m, LoanPartValueKey, Num(row.loanPartValue.value)))
  {
    var start := match row.startDate case Some(d) => [(StartDateKey, When(d))] case None => [];
    var end := match row.endDate case Some(d) => [(EndDateKey, When(d))] case None => [];
    var value := match row.loanPartValue case Some(v) => [(LoanPartValueKey, Num(v))] case None => [];
    var m := [(TypeKey, Str(row.txnType))] + start + end + value;
    assert Metadata(row) == m;
    BindsAt(m, TypeKey, Str(row.txnType), 0);
    if row.startDate.Some? {
      BindsAt(m, StartDateKey, When(row.startDate.value), 1);
    }
    if row.endDate.Some? {
      BindsAt(m, EndDateKey, When(row.endDate.value), 1 + |start|);
    }
    if row.loanPartValue.Some? {
      BindsAt(m, LoanPartValueKey, Num(row.loanPartValue.value), 1 + |start| + |end|);
    }
  }

  // ---------------------------------------------------------------------
  // Rows to transactions

  /** The transaction for one row that is not skipped. */
  function EntryFor(cfg: Config, row: Row): (e: Entry)
    ensures TwoLegged(e) && e.date == row.txnDate && e.payee.None?
    ensures e.postings[0] == Leg(cfg.cashAccount, Amount(row.txnAmount, Pound), None)
    ensures e.postings[1] == Balancing(SecondAccount(cfg, Categorise(row.txnType)), None)
    // the flag asks for review exactly when the type is not recognised
    ensures e.flag == Warning <==> Categorise(row.txnType) == Unrecognised
    // deposits and withdrawals are renamed; every other row keeps its detail
    ensures e.narration == Some(if Categorise(row.txnType) == Transfer then TransferNarration else row.loanPartDetail)
    // a link exactly when the row names a loan part
    ensures e.links == (if row.loanPartId != "" then {LinkPrefix + row.loanPartId} else {})
    ensures e.meta == Metadata(row)
  {
    var c := Categorise(row.txnType);
    var narration := if c == Transfer then TransferNarration else row.loanPartDetail;
    var flag := if c == Unrecognised then Warning else Okay;
    var links := if row.loanPartId != "" then {LinkPrefix + row.loanPartId} else {};
    Txn(Metadata(row), row.txnDate, flag, None, Some(narration), links,
        [Leg(cfg.cashAccount, Amount(row.txnAmount, Pound), None), Balancing(SecondAccount(cfg, c), None)])
  }

  /** The rows that produce entries, in order: a filter that drops balance rows. */
  function Kept(rows: seq<Row>): (kept: seq<Row>)
    ensures |kept| <= |rows|
  {
    if rows == [] then []
    else if IsSkipped(rows[0]) then Kept(rows[1..])
    else [rows[0]] + Kept(rows[1..])
  }

  /** Balance rows yield nothing; every other row yields one transaction, in order. */
  function Extract(cfg: Config, rows: seq<Row>): seq<Entry> {
    var kept := Kept(rows);
    seq(|kept|, i requires 0 <= i < |kept| => EntryFor(cfg, kept[i]))
  }

  function CountSkipped(rows: seq<Row>): nat {
    if rows == [] then 0 else (if IsSkipped(rows[0]) then 1 else 0) + CountSkipped(rows[1..])
  }

  /** The number of transactions is the number of rows less the balance rows. */
  lemma {:induction false} ExtractLength(cfg: Config, rows: seq<Row>)
    ensures |Extract(cfg, rows)| == |rows| - CountSkipped(rows)
  {
    KeptLength(rows);
  }

  lemma {:induction false} KeptLength(rows: seq<Row>)
    ensures |Kept(rows)| == |rows| - CountSkipped(rows)
  {
    if rows != [] {
      KeptLength(rows[1..]);
    }
  }

  /** Appending a row keeps it unless it is a balance row. */
  lemma {:induction false} KeptAppend(rows: seq<Row>, row: Row)
    ensures Kept(rows + [row]) == Kept(rows) + (if IsSkipped(row) then [] else [row])
  {
    if rows == [] {
      assert rows + [row] == [row];
      assert [row][1..] == [];
    } else {
      KeptAppend(rows[1..], row);
      assert (rows + [row])[1..] == rows[1..] + [row];
      assert (rows + [row])[0] == rows[0];
    }
  }

  /** Appending a row appends its transaction, or nothing for a balance row:
      the extraction is a left-to-right fold over the rows. */
  lemma ExtractAppend(cfg: Config, rows: seq<Row>, row: Row)
    ensures Extract(cfg, rows + [row]) ==
              Extract(cfg, rows) + (if IsSkipped(row) then [] else [EntryFor(cfg, row)])
  {
    KeptAppend(rows, row);
  }

  /** Every transaction comes from a kept row, in order, and no balance row
      is kept. */
  lemma {:induction false} KeptRows(rows: seq<Row>)
    ensures forall r :: r in Kept(rows) ==> r in rows && !IsSkipped(r)
  {
    if rows != [] {
      KeptRows(rows[1..]);
    }
  }

  // ---------------------------------------------------------------------
  // Identification and filing date

  const Header := "Txn Date,Transaction type,Loan part ID,Loan part value,Loan part detail,"
                  + "Loan ID,Start date,End date,Txn Amount,Balance"

  /** `Lendy_Statement_YYYYMMDD-YYYYMMDD`, the stem of an export's name. */
  const NameStem: seq<Token> := Literal("Lendy_Statement_") + Digits(8) + Literal("-") + Digits(8)

  /** The name pattern as written: the dot before `csv` is unescaped, so it
      accepts any character there, and `$` admits a final newline. */
  predicate IdentifyAsWritten(name: string, head: string) {
    FitsToEnd(name, NameStem + [AnyButNewline] + Literal("csv")) && StartsWith(head, Header)
  }

  /** Identification with the file name pattern the export naming evidently
      intends: the stem followed by exactly `.csv`. */
  predicate Identify(name: string, head: string) {
    Fits(name, NameStem + Literal(".csv")) && StartsWith(head, Header)
  }

  /** A `%Y%m%d.csv` stamp written with two-digit month and day; the text
      `.csv` is matched without regard to case. None where parsing fails. */
  function ParseStamp(t: string): (r: Option<Day>)
    ensures r.Some? ==> |t| == 12 && AllDigits(t[..8])
    ensures r.Some? ==> r.value == Date(FourDigits(t[..4]), TwoDigits(t[4..6]), TwoDigits(t[6..8]))
    ensures |t| == 12 && AllDigits(t[..8]) ==>
              (r.Some? <==> Lower(t[8..]) == ".csv" && Valid(Date(FourDigits(t[..4]), TwoDigits(t[4..6]), TwoDigits(t[6..8]))))
  {
    if |t| != 12 || !AllDigits(t[..8]) || Lower(t[8..]) != ".csv" then None
    else
      AllDigitsWithin(t, 8, 0, 4);
      AllDigitsWithin(t, 8, 4, 6);
      AllDigitsWithin(t, 8, 6, 8);
      var d := Date(FourDigits(t[..4]), TwoDigits(t[4..6]), TwoDigits(t[6..8]));
      if Valid(d) then Some(d) else None
  }

  /** The filing date: the statement's end date, from the second `-`-separated
      field of the file name. */
  function FileDate(name: string): Option<Day> {
    var fields := Split(name, '-');
    if |fields| < 2 then None else ParseStamp(fields[1])
  }

  /** The name the export gives the statement running from stamp `start` to
      stamp `end` (each `YYYYMMDD`). */
  function StatementName(start: string, end: string): string {
    "Lendy_Statement_" + start + "-" + end + ".csv"
  }

  /** The as-written pattern also accepts any well-formed name with its dot
      replaced by another character, such as `Lendy_Statement_20200101-20200131Xcsv`;
      the filing date of such a name cannot be read, and the intended pattern
      rejects it. */
  lemma NameCheckAcceptsUndatable(name: string, head: string, c: char)
    requires Identify(name, head) && c != '.' && c != '\n'
    ensures IdentifyAsWritten(name[..33] + [c] + name[34..], head)
    ensures FileDate(name[..33] + [c] + name[34..]).None?
    ensures !Identify(name[..33] + [c] + name[34..], head)
  {
    NameLayout(name);
    assert |NameStem| == 33;
    DotWildcard(name, NameStem, "csv", c);
    UndatableWithoutDot(name, c);
  }

  /** Replacing the dot of an identified name leaves a name whose end stamp
      is not followed by `.csv`, so no filing date can be read from it. */
  lemma {:induction false} UndatableWithoutDot(name: string, c: char)
    requires |name| == 37 && c != '.'
    requires name[..16] == "Lendy_Statement_" && name[24] == '-' && name[33..] == ".csv"
    requires AllDigits(name[16..24]) && AllDigits(name[25..33])
    ensures FileDate(name[..33] + [c] + name[34..]).None?
  {
    var bad := name[..33] + [c] + name[34..];
    var first := bad[..24];
    assert first == name[..24];
    assert '-' !in first by {
      forall i | 0 <= i < 24 ensures first[i] != '-' {
        assert first[i] == name[i];
        if i >= 16 {
          assert name[16..24][i - 16] == name[i];
        }
      }
    }
    var digits := name[25..33];
    assert '-' !in digits by {
      forall i | 0 <= i < 8 ensures digits[i] != '-' {
      }
    }
    assert name[34..] == "csv";
    var rest := digits + [c] + "csv";
    assert bad == first + ['-'] + rest;
    SplitFirstField(first, '-', rest);
    if c == '-' {
      SplitFirstField(digits, '-', "csv");
      assert Split(bad, '-')[1] == digits;
    } else {
      assert '-' !in rest;
      FileDateOfFields(first, rest);
      assert Lower(rest[8..])[0] == LowerChar(c);
    }
  }

  /** A name of two `-`-separated fields is dated by its second field. */
  lemma FileDateOfFields(first: string, stamp: string)
    requires '-' !in first && '-' !in stamp
    ensures FileDate(first + ['-'] + stamp) == ParseStamp(stamp)
  {
    SplitFirstField(first, '-', stamp);
    SplitNoSeparator(stamp, '-');
  }

  /** Every name the intended pattern accepts is accepted as written. */
  lemma IdentifyRefinesAsWritten(name: string, head: string)
    requires Identify(name, head)
    ensures IdentifyAsWritten(name, head)
  {
    DotWildcardKeeps(name, NameStem, "csv");
  }

  /** The character-level reading of the intended name pattern. */
  lemma NameLayout(name: string)
    requires Fits(name, NameStem + Literal(".csv"))
    ensures |name| == 37
    ensures name[..16] == "Lendy_Statement_" && name[24] == '-' && name[33..] == ".csv"
    ensures AllDigits(name[16..24]) && AllDigits(name[25..33])
  {
    var shape := NameStem + Literal(".csv");
    forall i | 0 <= i < 37 ensures Accepts(shape[i], name[i]) {
    }
  }

  /** Every name the intended pattern accepts has a readable filing date
      exactly when its end stamp is a real calendar date. */
  lemma {:induction false} IdentifiedNames(name: string, head: string)
    requires Identify(name, head)
    ensures |name| == 37 && EndsWith(name, ".csv") && AllDigits(name[25..33])
    ensures FileDate(name).Some? <==>
              Valid(Date(FourDigits(name[25..29]), TwoDigits(name[29..31]), TwoDigits(name[31..33])))
    ensures FileDate(name).Some? ==>
              FileDate(name).value == Date(FourDigits(name[25..29]), TwoDigits(name[29..31]), TwoDigits(name[31..33]))
  {
    NameLayout(name);
    var first := name[..24];
    var stamp := name[25..];
    assert '-' !in first by {
      forall i | 0 <= i < 24 ensures first[i] != '-' {
        assert first[i] == name[i];
        if i >= 16 {
          assert name[16..24][i - 16] == name[i];
        }
      }
    }
    assert name == first + ['-'] + stamp;
    assert '-' !in stamp by {
      forall i | 0 <= i < 12 ensures stamp[i] != '-' {
        assert stamp[i] == name[25 + i];
      }
    }
    FileDateOfFields(first, stamp);
    assert stamp[..8] == name[25..33];
    assert stamp[8..] == ".csv";
    assert stamp[..4] == name[25..29] && stamp[4..6] == name[29..31] && stamp[6..8] == name[31..33];
  }

  /** Every name in the export's naming convention is identified, by the
      intended pattern and by the pattern as written. */
  lemma StatementNamesIdentified(start: string, end: string)
    requires |start| == 8 && |end| == 8 && AllDigits(start) && AllDigits(end)
    ensures Identify(StatementName(start, end), Header)
    ensures IdentifyAsWritten(StatementName(start, end), Header)
  {
    LiteralFits("Lendy_Statement_");
    DigitsFit(start);
    FitsConcat("Lendy_Statement_", Literal("Lendy_Statement_"), start, Digits(8));
    var name := "Lendy_Statement_" + start;
    var shape := Literal("Lendy_Statement_") + Digits(8);
    LiteralFits("-");
    FitsConcat(name, shape, "-", Literal("-"));
    DigitsFit(end);
    FitsConcat(name + "-", shape + Literal("-"), end, Digits(8));
    LiteralFits(".csv");
    FitsConcat(name + "-" + end, shape + Literal("-") + Digits(8), ".csv", Literal(".csv"));
    IdentifyRefinesAsWritten(StatementName(start, end), Header);
  }

}
