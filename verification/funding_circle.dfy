/** The Funding Circle lender statement importer: each CSV row (date,
    description, paid in, paid out) becomes one transaction between the
    statement account and an account chosen by classifying the description. */
module FundingCircle {
  import opened Wrappers
  import opened Calendar
  import opened Text
  import opened Ledger
  import opened Rules

  /** The accounts the importer posts to, supplied when it is configured. */
  datatype Config = Config(
    account: Account,
    defaultTransferAccount: Account,
    feeAccount: Account,
    interestAccount: Account,
    loanAccount: Account)

  /** One statement row with its cells parsed; a blank amount cell reads as zero. */
  datatype Row = Row(date: Day, description: string, paidIn: real, paidOut: real)

  const Pound: Currency := "GBP"
  const PlatformPayee := "Funding Circle"
  const TransferNarration := "Transfer"
  const IncomeUnknown: Account := "Income:Unknown"
  const ExpensesUnknown: Account := "Expenses:Unknown"
  const Unknown: Account := "Unknown"
  const DescriptionKey := "description"

  const TransferPrefixes: seq<string> := ["EPDQ+3DS", "FC Len Withdrawal"]
  const LoanPrefixes: seq<string> :=
    ["Loan Part", "Principal repayment", "Loan offer", "Early principal repayment", "Principal recovery repayment"]
  const InterestPrefixes: seq<string> :=
    ["Interest repayment", "Early interest repayment", "Interest recovery repayment"]
  const FeePrefixes: seq<string> := ["Servicing fee"]

  /** The two spellings of a loan-part reference, in order of preference. */
  const LoanIdTag := "Loan Part ID "
  const LoanPartTag := "loan part "
  const LinkPrefix := "loan_"

  // ---------------------------------------------------------------------
  // Amount

  /** The row's amount: what was paid out, negated, when anything was;
      otherwise what was paid in. */
  function SignedAmount(row: Row): (amount: real)
    ensures row.paidOut > 0.0 ==> amount < 0.0 && amount == -row.paidOut
    ensures row.paidOut <= 0.0 ==> amount == row.paidIn
    ensures row.paidIn >= 0.0 && row.paidOut >= 0.0 && (row.paidIn == 0.0 || row.paidOut == 0.0)
            ==> amount == row.paidIn - row.paidOut
  {
    if row.paidOut > 0.0 then -row.paidOut else row.paidIn
  }

  // ---------------------------------------------------------------------
  // Classification of the description

  datatype Category = Transfer | LoanPrincipal | Interest | ServicingFee | UnknownIncome | UnknownExpense | Unmatched

  /** The classification as a first-match-wins table. */
  const CategoryRules: seq<Rule<Category>> := [
    Rule(PrefixOf(TransferPrefixes), AnySign, Transfer),
    Rule(PrefixOf(LoanPrefixes), AnySign, LoanPrincipal),
    Rule(PrefixOf(InterestPrefixes), Positive, Interest),
    Rule(PrefixOf(FeePrefixes), Negative, ServicingFee),
    Rule(AnyText, Positive, UnknownIncome),
    Rule(AnyText, Negative, UnknownExpense)
  ]

  /** The classification ladder, its conditions in the importer's order. */
  function Categorise(desc: string, amount: real): Category {
    if StartsWithAny(desc, TransferPrefixes) then Transfer
    else if StartsWithAny(desc, LoanPrefixes) then LoanPrincipal
    else if StartsWithAny(desc, InterestPrefixes) && amount > 0.0 then Interest
    else if StartsWithAny(desc, FeePrefixes) && amount < 0.0 then ServicingFee
    else if amount > 0.0 then UnknownIncome
    else if amount < 0.0 then UnknownExpense
    else Unmatched
  }

  /** The ladder agrees with the first-match-wins rule table. */
  lemma CategoriseIsFirstMatch(desc: string, amount: real)
    ensures Categorise(desc, amount) == Evaluate(CategoryRules, Unmatched, desc, amount)
  {
    var rules := CategoryRules;
    assert Fires(rules[0], desc, amount) <==> StartsWithAny(desc, TransferPrefixes);
    assert Fires(rules[1], desc, amount) <==> StartsWithAny(desc, LoanPrefixes);
    assert Fires(rules[2], desc, amount) <==> StartsWithAny(desc, InterestPrefixes) && amount > 0.0;
    assert Fires(rules[3], desc, amount) <==> StartsWithAny(desc, FeePrefixes) && amount < 0.0;
    assert Fires(rules[4], desc, amount) <==> amount > 0.0;
    assert Fires(rules[5], desc, amount) <==> amount < 0.0;
    if StartsWithAny(desc, TransferPrefixes) {
      EvaluateFirst(rules, Unmatched, desc, amount, 0);
    } else if StartsWithAny(desc, LoanPrefixes) {
      EvaluateFirst(rules, Unmatched, desc, amount, 1);
    } else if StartsWithAny(desc, InterestPrefixes) && amount > 0.0 {
      EvaluateFirst(rules, Unmatched, desc, amount, 2);
    } else if StartsWithAny(desc, FeePrefixes) && amount < 0.0 {
      EvaluateFirst(rules, Unmatched, desc, amount, 3);
    } else if amount > 0.0 {
      EvaluateFirst(rules, Unmatched, desc, amount, 4);
    } else if amount < 0.0 {
      EvaluateFirst(rules, Unmatched, desc, amount, 5);
    } else {
      EvaluateNone(rules, Unmatched, desc, amount);
    }
  }

  /** The rows that no specific rule claims and that need a human to look at them. */
  predicate IsCatchAll(c: Category) {
    c == UnknownIncome || c == UnknownExpense
  }

  function SecondAccount(cfg: Config, c: Category): Account {
    match c
    case Transfer => cfg.defaultTransferAccount
    case LoanPrincipal => cfg.loanAccount
    case Interest => cfg.interestAccount
    case ServicingFee => cfg.feeAccount
    case UnknownIncome => IncomeUnknown
    case UnknownExpense => ExpensesUnknown
    case Unmatched => Unknown
  }

  // ---------------------------------------------------------------------
  // Loan-part reference

  predicate Mentions(desc: string, tag: string) {
    exists i :: 0 <= i < |desc| && TaggedAt(desc, tag, i)
  }

  /** The loan-part number: from the first `Loan Part ID <digits>` if there is
      one, else from the first `loan part <digits>`. */
  function LoanId(desc: string): (r: Option<string>)
    ensures r.Some? ==> r.value != [] && AllDigits(r.value)
    ensures r.None? <==> !Mentions(desc, LoanIdTag) && !Mentions(desc, LoanPartTag)
    ensures Mentions(desc, LoanIdTag) ==> r == FirstTaggedNumber(desc, LoanIdTag)
    ensures !Mentions(desc, LoanIdTag) ==> r == FirstTaggedNumber(desc, LoanPartTag)
  {
    match FirstTaggedNumber(desc, LoanIdTag)
    case Some(id) => Some(id)
    case None => FirstTaggedNumber(desc, LoanPartTag)
  }

  // ---------------------------------------------------------------------
  // Rows to transactions

  /** The transaction for one statement row. */
  function EntryFor(cfg: Config, row: Row): (e: Entry)
    ensures TwoLegged(e) && e.postings[0].account == cfg.account
  {
    var amount := SignedAmount(row);
    var c := Categorise(row.description, amount);
    var narration := if c == Transfer then TransferNarration else row.description;
    var payee := if c == Interest || c == ServicingFee then Some(PlatformPayee) else None;
    var flag := if IsCatchAll(c) then Warning else Okay;
    var links := match LoanId(row.description) case Some(id) => {LinkPrefix + id} case None => {};
    var meta := if row.description != narration then [(DescriptionKey, Str(row.description))] else [];
    Txn(meta, row.date, flag, payee, Some(narration), links,
        [Leg(cfg.account, Amount(amount, Pound), None), Balancing(SecondAccount(cfg, c), None)])
  }

  /** What the transaction for one row is. */
  lemma EntryForMeans(cfg: Config, row: Row)
    ensures var e := EntryFor(cfg, row);
            var c := Categorise(row.description, SignedAmount(row));
    && e.Txn? && e.date == row.date && e.postings[1].flag.None?
    && e.postings[0] == Leg(cfg.account, Amount(SignedAmount(row), Pound), None)
    && e.postings[1].account == SecondAccount(cfg, c)
    // the flag asks for review exactly when a catch-all rule chose the account
    && (e.flag == Warning <==> IsCatchAll(c))
    // the platform is named as payee for interest and fees only
    && (e.payee.Some? <==> c in {Interest, ServicingFee})
    && (e.payee.Some? ==> e.payee.value == PlatformPayee)
    // only transfers are renamed, and the raw description is kept when they are
    && e.narration.Some?
    && (e.narration.value != row.description <==> c == Transfer)
    && (e.narration.value != row.description ==> e.narration.value == TransferNarration)
    && (HasKey(e.meta, DescriptionKey) <==> e.narration.value != row.description)
    && (e.meta == [] || e.meta == [(DescriptionKey, Str(row.description))])
    // at most one link, naming the loan part the description mentions
    && (e.links == {} <==> LoanId(row.description).None?)
    && (LoanId(row.description).Some? ==> e.links == {LinkPrefix + LoanId(row.description).value})
  {
    var c := Categorise(row.description, SignedAmount(row));
    if c == Transfer {
      var i :| 0 <= i < |TransferPrefixes| && StartsWith(row.description, TransferPrefixes[i]);
      assert row.description[..|TransferPrefixes[i]|] == TransferPrefixes[i];
      assert row.description[0] == 'E' || row.description[0] == 'F';
    }
    var e := EntryFor(cfg, row);
    assert e.meta != [] ==> e.meta[0].0 == DescriptionKey;
  }

  /** One transaction per row, in row order. */
  function Extract(cfg: Config, rows: seq<Row>): seq<Entry> {
    seq(|rows|, i requires 0 <= i < |rows| => EntryFor(cfg, rows[i]))
  }

  /** Every entry of an extraction is a two-legged transaction posting the
      statement account first. */
  lemma ExtractTwoLegged(cfg: Config, rows: seq<Row>)
    ensures forall e :: e in Extract(cfg, rows) ==> TwoLegged(e) && e.postings[0].account == cfg.account
  {
  }

  // ---------------------------------------------------------------------
  // Identification and filing date

  const Header := "Date,Description,Paid In,Paid Out"

  /** `statement_YYYY-MM_YYYY-MM-DD_HH-MM-SS`, the stem of an export's name. */
  const NameStem: seq<Token> :=
    Literal("statement_") + Digits(4) + Literal("-") + Digits(2) + Literal("_")
    + Digits(4) + Literal("-") + Digits(2) + Literal("-") + Digits(2) + Literal("_")
    + Digits(2) + Literal("-") + Digits(2) + Literal("-") + Digits(2)

  /** The name pattern as written: the dot before `csv` is unescaped, so it
      accepts any character there, and `$` admits a final newline. */
  predicate IdentifyAsWritten(name: string, head: string) {
    FitsToEnd(name, NameStem + [AnyButNewline] + Literal("csv")) && StartsWith(head, Header)
  }

  /** Identification with the file name pattern the export naming evidently
      intends: the stem followed by exactly `.csv`. */
  predicate Identify(name: string, head: string) {
    Fits(name, NameStem + Literal(".csv")) && StartsWith(head, Header)
  }

  /** The month of a `%m` field that must consume the whole text: one digit
      1-9, or two digits 01-12. */
  function MonthField(t: string): (m: Option<int>)
    ensures m.Some? ==> 1 <= m.value <= 12
    ensures |t| == 1 && IsDigit(t[0]) ==> m == if t[0] == '0' then None else Some(DigitValue(t[0]))
    ensures |t| == 2 && AllDigits(t) ==> m == if 1 <= TwoDigits(t) <= 12 then Some(TwoDigits(t)) else None
    ensures !(1 <= |t| <= 2 && AllDigits(t)) ==> m.None?
  {
    if |t| == 1 && '1' <= t[0] <= '9' then Some(DigitValue(t[0]))
    else if |t| == 2 && AllDigits(t) && 1 <= TwoDigits(t) <= 12 then Some(TwoDigits(t))
    else None
  }

  /** A `%Y-%m` stamp as the first day of that month; None where parsing fails. */
  function ParseYearMonth(t: string): (r: Option<Day>)
    ensures r.Some? ==> r.value.day == 1
    ensures r.Some? <==> && |t| >= 6 && AllDigits(t[..4]) && t[4] == '-'
                         && FourDigits(t[..4]) >= MinYear && MonthField(t[5..]).Some?
    ensures r.Some? ==> r.value == Date(FourDigits(t[..4]), MonthField(t[5..]).value, 1)
  {
    if |t| < 6 || !AllDigits(t[..4]) || t[4] != '-' then None
    else
      var y := FourDigits(t[..4]);
      match MonthField(t[5..])
      case None => None
      case Some(m) => if y < MinYear then None else Some(Date(y, m, 1))
  }

  /** The filing date: the statement month, read from the second `_`-separated
      field of the file name. */
  function FileDate(name: string): Option<Day> {
    var fields := Split(name, '_');
    if |fields| < 2 then None else ParseYearMonth(fields[1])
  }

  /** The name the export gives the statement of month `y`-`m` produced on
      `date` (year, month, day) at `time` (hours, minutes, seconds):
      `statement_YYYY-MM_YYYY-MM-DD_HH-MM-SS.csv`. */
  function StatementName(y: string, m: string, date: seq<string>, time: seq<string>): string
    requires |date| == 3 && |time| == 3
  {
    "statement_" + y + "-" + m + "_" + date[0] + "-" + date[1] + "-" + date[2]
    + "_" + time[0] + "-" + time[1] + "-" + time[2] + ".csv"
  }

  /** The as-written pattern also accepts any well-formed name with its dot
      replaced by another character, such as
      `statement_2020-01_2020-01-01_00-00-00Xcsv`, which is not a `.csv` name;
      the intended pattern rejects it. */
  lemma NameCheckAcceptsNonCsv(name: string, head: string, c: char)
    requires Identify(name, head) && c != '.' && c != '\n'
    ensures IdentifyAsWritten(name[..37] + [c] + name[38..], head)
    ensures !EndsWith(name[..37] + [c] + name[38..], ".csv")
    ensures !Identify(name[..37] + [c] + name[38..], head)
  {
    assert |NameStem| == 37;
    DotWildcard(name, NameStem, "csv", c);
  }

  /** Every name the intended pattern accepts is accepted as written. */
  lemma IdentifyRefinesAsWritten(name: string, head: string)
    requires Identify(name, head)
    ensures IdentifyAsWritten(name, head)
  {
    DotWildcardKeeps(name, NameStem, "csv");
  }

  /** The character-level reading of the intended name pattern. */
  lemma NameLayout(name: string)
    requires Fits(name, NameStem + Literal(".csv"))
    ensures |name| == 41
    ensures name[..10] == "statement_" && name[14] == '-' && name[17] == '_' && name[37..] == ".csv"
    ensures AllDigits(name[10..14]) && AllDigits(name[15..17])
  {
    var shape := NameStem + Literal(".csv");
    forall i | 0 <= i < 41 ensures Accepts(shape[i], name[i]) {
    }
  }

  /** Every name the intended pattern accepts is a `.csv` name, and its filing
      date is the first day of the month in its first stamp (when that month
      exists). */
  lemma {:induction false} IdentifiedNames(name: string, head: string)
    requires Identify(name, head)
    ensures |name| == 41 && EndsWith(name, ".csv")
    ensures AllDigits(name[10..14]) && AllDigits(name[15..17])
    ensures FileDate(name).Some? <==> FourDigits(name[10..14]) >= MinYear && 1 <= TwoDigits(name[15..17]) <= 12
    ensures FileDate(name).Some? ==>
              FileDate(name).value == Date(FourDigits(name[10..14]), TwoDigits(name[15..17]), 1)
  {
    NameLayout(name);
    var stamp := name[10..17];
    assert '_' !in stamp by {
      forall i | 0 <= i < 7 ensures stamp[i] != '_' {
        assert stamp[i] == name[10 + i];
      }
    }
    assert name == "statement" + ['_'] + name[10..];
    SplitFirstField("statement", '_', name[10..]);
    assert name[10..] == stamp + ['_'] + name[18..];
    SplitFirstField(stamp, '_', name[18..]);
    assert Split(name, '_')[1] == stamp;
    assert stamp[..4] == name[10..14];
    assert stamp[5..] == name[15..17];
  }

  /** Every name in the export's naming convention is identified, by the
      intended pattern and by the pattern as written. */
  lemma StatementNamesIdentified(y: string, m: string, date: seq<string>, time: seq<string>)
    requires |y| == 4 && |m| == 2 && AllDigits(y) && AllDigits(m)
    requires |date| == 3 && |time| == 3
    requires |date[0]| == 4 && |date[1]| == 2 && |date[2]| == 2
    requires AllDigits(date[0]) && AllDigits(date[1]) && AllDigits(date[2])
    requires forall i :: 0 <= i < 3 ==> |time[i]| == 2 && AllDigits(time[i])
    ensures Identify(StatementName(y, m, date, time), Header)
    ensures IdentifyAsWritten(StatementName(y, m, date, time), Header)
  {
    var name := "statement_";
    var shape := Literal("statement_");
    LiteralFits(name);
    DigitsFit(y);              FitsConcat(name, shape, y, Digits(4));
    name, shape := name + y, shape + Digits(4);
    LiteralFits("-");          FitsConcat(name, shape, "-", Literal("-"));
    name, shape := name + "-", shape + Literal("-");
    DigitsFit(m);              FitsConcat(name, shape, m, Digits(2));
    name, shape := name + m, shape + Digits(2);
    LiteralFits("_");          FitsConcat(name, shape, "_", Literal("_"));
    name, shape := name + "_", shape + Literal("_");
    DigitsFit(date[0]);        FitsConcat(name, shape, date[0], Digits(4));
    name, shape := name + date[0], shape + Digits(4);
    FitsConcat(name, shape, "-", Literal("-"));
    name, shape := name + "-", shape + Literal("-");
    DigitsFit(date[1]);        FitsConcat(name, shape, date[1], Digits(2));
    name, shape := name + date[1], shape + Digits(2);
    FitsConcat(name, shape, "-", Literal("-"));
    name, shape := name + "-", shape + Literal("-");
    DigitsFit(date[2]);        FitsConcat(name, shape, date[2], Digits(2));
    name, shape := name + date[2], shape + Digits(2);
    FitsConcat(name, shape, "_", Literal("_"));
    name, shape := name + "_", shape + Literal("_");
    DigitsFit(time[0]);        FitsConcat(name, shape, time[0], Digits(2));
    name, shape := name + time[0], shape + Digits(2);
    FitsConcat(name, shape, "-", Literal("-"));
    name, shape := name + "-", shape + Literal("-");
    DigitsFit(time[1]);        FitsConcat(name, shape, time[1], Digits(2));
    name, shape := name + time[1], shape + Digits(2);
    FitsConcat(name, shape, "-", Literal("-"));
    name, shape := name + "-", shape + Literal("-");
    DigitsFit(time[2]);        FitsConcat(name, shape, time[2], Digits(2));
    name, shape := name + time[2], shape + Digits(2);
    LiteralFits(".csv");       FitsConcat(name, shape, ".csv", Literal(".csv"));
    name, shape := name + ".csv", shape + Literal(".csv");
    assert name == StatementName(y, m, date, time);
    assert shape == NameStem + Literal(".csv");
    IdentifyRefinesAsWritten(StatementName(y, m, date, time), Header);
  }

}
