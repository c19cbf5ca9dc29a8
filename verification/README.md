# Beancount statement importers, modelled in Dafny

This project models the four statement importers of beancount-bits. Each one
turns an already-parsed export into an ordered list of ledger entries: notes,
transactions and balance assertions.

- **Monzo current account** (`MonzoDebit`). Each record of a Monzo API
  transaction export becomes exactly one entry.
  - A PIN change (notes equal to "pin change" in any case) becomes a note, and
    so does a declined payment.
  - Every other record becomes a two-legged transaction. Its first posting
    carries the amount and any foreign-exchange unit price; its second posting
    balances it.
  - A transfer between pots posts back to the same account, unflagged, and
    links the pot id. Anything else goes to `Expenses:Unknown` with a warning
    flag.
- **Monzo prepaid card** (`MonzoPrepaid`). The same record mapping, with a
  case-sensitive PIN-change test, a merchant-only payee and a top-up (load)
  path to the default transfer account. It also inserts balance assertions:
  one after every tenth record that is a transaction, and one after the last
  record when that record is a transaction and no assertion was written at a
  multiple of ten.
  - The importer's counting loop is modelled as a method.
  - That method is proved equal to a declarative schedule: record entries
    interleaved with the balance assertions due after them.
- **Funding Circle** (`FundingCircle`). Each CSV row becomes one transaction.
  - The sign comes from the Paid In / Paid Out columns.
  - The description is classified by prefix, first match wins, into transfer,
    loan, interest, fee or unknown income/expense.
  - A loan-part number becomes a `loan_<n>` link.
  - A renamed description is kept as metadata.
- **Lendy** (`Lendy`). Balance rows are skipped. Each other row is classified
  by its exact transaction type, linked to its loan part, and given metadata
  for its filled-in optional cells.

The shared modules are these:

- `Ledger`: entries, postings, amounts and metadata.
- `Monzo`: the record shape, unit price, base metadata, identification and
  filing date that both Monzo importers share.
- `Rules`: first-match-wins rule tables. The Funding Circle and Lendy
  classification ladders are each proved equal to one.
- `Text`: string predicates, splitting, tagged-number search, and file-name
  shapes built from literal, `\d` and `.` tokens.
- `Calendar`: proleptic Gregorian days from year 1 to 9999, with the next
  day.
- `Sequences`: interleaving items with optional companions.
- `Wrappers`: `Option` and first-present fallback chains.

Amounts are exact rationals (`real`). Monzo amounts are integer minor units,
divided by 100 when posted. Dates are given as already-parsed `Day` values.

## Model

| member | source | states |
|---|---|---|
| Monzo.MinorUnits | ingest/importers/monzo_debit.py:122 | The posted amount, times 100, is the record's minor-unit integer, in the record's currency. |
| Monzo.GetUnitPrice | ingest/importers/monzo_debit.py:29-39 | There is no price exactly when the local currency is the settlement currency or the local amount is zero. A price is positive, in the local currency, and times the settled amount gives the local amount, in absolute values. |
| Monzo.BaseMetadata | ingest/importers/monzo_debit.py:85-92 | Six entries with distinct keys, in the importer's key order. They hold the record's id, dedupe id, raw description, and created, settled and updated stamps. |
| Monzo.DeclineComment | ingest/importers/monzo_debit.py:110 | A decline note's text starts with the payee (or `None`) and ends with the decline reason. |
| Monzo.Identify | ingest/importers/monzo_debit.py:70-77 | An export is identified exactly when it has a JSON name, its list is non-empty, and the first record's account id is non-empty and equal to the configured id. |
| Monzo.FileDate | ingest/importers/monzo_debit.py:147-150 | The filing date exists exactly for a JSON name with a non-empty list, and it is the last record's day. |
| Monzo.JsonNameAcceptsOtherExtensions | ingest/importers/monzo_debit.py:22 | The name test as written accepts `<name>.json.bak`, which the intended `.json`-extension test rejects. |
| Monzo.JsonNameRefinesAsWritten | ingest/importers/monzo_debit.py:22 | Every name with a `.json` extension and no newline passes the test as written. |
| MonzoDebit.GetPayee | ingest/importers/monzo_debit.py:42-50 | The payee is the first present value of merchant name, counterparty preferred name and counterparty name. It is absent exactly when all three are. |
| MonzoDebit.GetNarration | ingest/importers/monzo_debit.py:53-59 | The narration is the first of: non-empty notes, the pot-transfer text for the pot scheme, the description when there is no payee. It is absent exactly when none applies. |
| MonzoDebit.CounterpartyMetadata | ingest/importers/monzo_debit.py:94-99 | The account number and sort code appear exactly when bank details are present, and hold the bank details' values. The phone number and user id appear exactly when bank details are absent and a phone is present, and hold the phone details' values. There are two keys with bank details or a phone and none otherwise, all counterparty keys, distinct, and none a base key. |
| MonzoDebit.Metadata | ingest/importers/monzo_debit.py:85-101 | The base metadata comes first and the counterparty details follow it. |
| MonzoDebit.MetadataKeys | ingest/importers/monzo_debit.py:85-101 | The joined metadata holds the six base keys, plus two counterparty keys when there are bank details or a phone, and no other keys. Its keys are distinct, and the four counterparty keys appear exactly under the conditions above. |
| MonzoDebit.MetadataValues | ingest/importers/monzo_debit.py:94-99 | In the joined metadata, each counterparty key that is present holds the counterparty's own value for it. |
| MonzoDebit.EntryForMeans | ingest/importers/monzo_debit.py:103-137 | A record makes a note exactly for a PIN change (in any case) or a decline, and the PIN change takes priority. Otherwise it makes an OK-flagged, two-legged transaction. Its first posting is the account with amount/100 and the unit price. A pot transfer posts back to the account unflagged and links the pot id; anything else goes to `Expenses:Unknown`, flagged, with no links. |
| MonzoDebit.ExtractShape | ingest/importers/monzo_debit.py:79-139 | An extraction has no balance assertions, and each transaction in it is two-legged on the configured account. |
| MonzoPrepaid.GetPayee | ingest/importers/monzo_prepaid.py:43-47 | The payee is present exactly when a merchant is, and it is the merchant's name. |
| MonzoPrepaid.GetNarration | ingest/importers/monzo_prepaid.py:50-54 | The narration is the notes when they are non-empty. Otherwise it is present exactly when there is no payee, and then it is the description. |
| MonzoPrepaid.PayeeAgreesWithDebit | ingest/importers/monzo_prepaid.py:43-47 | With a merchant, both importers choose the same payee. |
| MonzoPrepaid.PinChangeStricterThanDebit | ingest/importers/monzo_prepaid.py:95 | A prepaid PIN change is a current-account PIN change. Notes reading "pin change" are a PIN change to the current-account importer and not to the prepaid one. |
| MonzoPrepaid.EntryFor | ingest/importers/monzo_prepaid.py:95-126 | The entry is never a balance, is dated on the record's day, and is a transaction exactly when the record makes no note. A transaction is two-legged, with the record's amount on the account. |
| MonzoPrepaid.EntryForMeans | ingest/importers/monzo_prepaid.py:95-126 | A record makes a note exactly for notes equal to "PIN change" or a decline, and the PIN change takes priority. A transaction has no links and a warning flag on its second posting. A load is narrated "Transfer" against the default transfer account; anything else keeps its narration and goes to `Expenses:Unknown`. |
| MonzoPrepaid.BalanceFor | ingest/importers/monzo_prepaid.py:130-137 | A balance assertion is on the account, dated the day after the record, and its amount times 100 is the record's balance in the record's currency. |
| MonzoPrepaid.Extract | ingest/importers/monzo_prepaid.py:75-139 | The counting loop produces the declarative schedule: each record's entry, followed by its balance assertion when one is due. |
| MonzoPrepaid.BalanceDue | ingest/importers/monzo_prepaid.py:128 | The loop's test (`count % 10 == 0`, or last record and `last_balance_line < 5`) equals "a transaction, at a multiple of ten or last with no earlier multiple-of-ten transaction". `last_balance_line < 5` tracks that condition. |
| MonzoPrepaid.TenthSeenMeans | ingest/importers/monzo_prepaid.py:81 | A balance has been written at a multiple of ten among the first n records exactly when one of them at a multiple-of-ten position is a transaction. |
| MonzoPrepaid.ScheduleAt | ingest/importers/monzo_prepaid.py:83-126 | Every record's entry appears in the output in record order: record i sits at position p, which is i plus the number of balance assertions due after the records before it. |
| MonzoPrepaid.BalanceAt | ingest/importers/monzo_prepaid.py:128-137 | For record i at position p, the entry at p + 1 is a balance assertion exactly when one is due after record i, and then it is that record's balance. |
| MonzoPrepaid.BalanceFollowsTxn | ingest/importers/monzo_prepaid.py:128-137 | Every balance assertion directly follows a two-legged transaction on the same account and currency, dated the day after it; none follows a note. |
| MonzoPrepaid.NoNotesBalanceCount | ingest/importers/monzo_prepaid.py:128-129 | Without notes, n records get n/10 balance assertions, plus one when 0 < n < 10. |
| MonzoPrepaid.NoNotesOutputLength | ingest/importers/monzo_prepaid.py:79-137 | Without notes, the output has N + N/10 entries, plus one more when 0 < N < 10. |
| Calendar.NextDay | ingest/importers/monzo_prepaid.py:133 | The day after a day (other than the last representable one) is later than it. |
| FundingCircle.SignedAmount | ingest/importers/funding_circle.py:44-47 | A positive Paid Out gives its negation; otherwise the amount is Paid In. For non-negative cells with at most one filled, this is Paid In minus Paid Out. |
| FundingCircle.CategoriseIsFirstMatch | ingest/importers/funding_circle.py:56-82 | The classification ladder equals the first-match-wins table: transfer, loan, interest if positive, fee if negative, unknown income if positive, unknown expense if negative. |
| FundingCircle.LoanId | ingest/importers/funding_circle.py:84-89 | A loan id is a non-empty digit run. It comes from the first `Loan Part ID <digits>` when there is one, else from the first `loan part <digits>`. It is absent exactly when neither occurs. |
| FundingCircle.EntryFor | ingest/importers/funding_circle.py:103-108 | Every row becomes a two-legged transaction posting the statement account first. |
| FundingCircle.EntryForMeans | ingest/importers/funding_circle.py:49-108 | The amount is on the statement account in GBP, and the classified account balances it unflagged. The warning flag is set exactly for the catch-all classes. The platform is the payee exactly for interest and fees. Only transfers are renamed "Transfer", and the `description` metadata is present exactly then. There is one `loan_<id>` link exactly when a loan id is found. |
| FundingCircle.ExtractTwoLegged | ingest/importers/funding_circle.py:37-110 | Every entry of an extraction is a two-legged transaction on the statement account. |
| FundingCircle.MonthField | ingest/importers/funding_circle.py:119 | A `%m` field is a month exactly when it is one digit 1-9 or two digits 01-12, and then it is that number. Any other text is no month. |
| FundingCircle.ParseYearMonth | ingest/importers/funding_circle.py:119 | A `%Y-%m` stamp parses exactly when it is four digits (a year from 1 on), a dash and a month field. The result is the first day of that year and month. |
| FundingCircle.NameCheckAcceptsNonCsv | ingest/importers/funding_circle.py:33 | The name pattern as written accepts a well-formed name whose dot is replaced by another character; that name is not a `.csv` name, and the intended pattern rejects it. |
| FundingCircle.IdentifiedNames | ingest/importers/funding_circle.py:118-119 | An identified name is 41 characters ending in `.csv`. Its filing date exists exactly when the statement month's year and month are valid, and it is that month's first day. |
| FundingCircle.IdentifyRefinesAsWritten | ingest/importers/funding_circle.py:31-35 | Every name and head the intended pattern identifies is identified by the pattern as written. |
| FundingCircle.StatementNamesIdentified | ingest/importers/funding_circle.py:31-35 | Every name of the form `statement_YYYY-MM_YYYY-MM-DD_HH-MM-SS.csv` with the header line is identified, by the intended pattern and by the pattern as written. |
| Lendy.CategoriseIsFirstMatch | ingest/importers/lendy.py:59-71 | The type ladder equals the first-match-wins table over exact type strings: loan movements, transfers, interest, else unrecognised. |
| Lendy.Metadata | ingest/importers/lendy.py:84-90 | The type comes first, keys are distinct, and each optional key is present exactly when its cell is filled in. The size is one plus the filled cells. |
| Lendy.MetadataValues | ingest/importers/lendy.py:84-90 | Each key holds its cell's value: the type text, the start and end dates, and the loan part value. |
| Lendy.EntryFor | ingest/importers/lendy.py:55-95 | A two-legged transaction with no payee: the amount on the cash account in GBP, and the classified account. It is flagged exactly for an unrecognised type, narrated "Transfer" exactly for deposits and withdrawals (else the loan-part detail), and linked exactly when the loan part id is non-empty. |
| Lendy.ExtractLength | ingest/importers/lendy.py:49-53 | The number of transactions is the number of rows less the balance rows. |
| Lendy.ExtractAppend | ingest/importers/lendy.py:46-97 | Appending a row appends its transaction, or nothing for a balance row: extraction is an in-order fold over the rows. |
| Lendy.KeptRows | ingest/importers/lendy.py:52-53 | Every row that yields an entry is an input row and not a balance row. |
| Lendy.ParseStamp | ingest/importers/lendy.py:44 | A stamp parses only when it is 12 characters beginning with eight digits. Such a stamp parses exactly when the rest is `.csv` in any case and the digits name a calendar date, and the result is that date. |
| Lendy.NameCheckAcceptsUndatable | ingest/importers/lendy.py:32 | The name pattern as written accepts a well-formed name whose dot is replaced by another character. No filing date can be read from that name, and the intended pattern rejects it. |
| Lendy.IdentifiedNames | ingest/importers/lendy.py:43-44 | An identified name is 37 characters ending in `.csv`. Its filing date exists exactly when its end stamp is a calendar date, and then it is that date. |
| Lendy.IdentifyRefinesAsWritten | ingest/importers/lendy.py:30-35 | Every name and head the intended pattern identifies is identified by the pattern as written. |
| Lendy.StatementNamesIdentified | ingest/importers/lendy.py:30-35 | Every name of the form `Lendy_Statement_YYYYMMDD-YYYYMMDD.csv` with the header line is identified, by the intended pattern and by the pattern as written. |

## Left out

- Reading files is not modelled: `open`, `json.load`, `csv.DictReader`, `file.head()` and `os.path.basename`. The importers take parsed records or rows, the file's base name, and the head as text.
- Date parsing is not modelled: `parse_date_liberally` and `dateutil.parser.parse(dayfirst=True)`. Records and rows carry the day they denote.
- The beancount constructors `new_metadata`, `Transaction`, `Note`, `Balance` and `Posting` are replaced by the `Ledger` datatypes. The file name and line number that `new_metadata` adds are not modelled. Tags are always empty and are left out.
- `name()`, `file_account` and `file_name` are not modelled: they call into the framework or return a constant.
- The example configuration that wires one importer into a list has no logic and is not modelled.
- `get_transactions` returning `False` for a non-JSON name is modelled only through `Identify` and `FileDate`. For the extraction, the caller already holds the records.
- Monzo.GetUnitPrice: the price is the exact ratio |local amount / amount|, not the importer's value rounded to five decimal places. The promises that the price is positive and that price times settled amount gives the local amount hold only of the exact ratio. The rounded price can be zero (amount -1000000 against local amount 1 gives 0.00000), and it is inexact (amount 3 against local amount 1 gives 0.33333).
- Monzo.GetUnitPrice: it requires a non-zero settled amount whenever a price is due, because the importer divides by it unguarded and would fail.
- MonzoDebit.EntryFor: it requires a pot id for a pot transfer, because the importer raises a key error without one.
- MonzoPrepaid.Extract: it requires that no record followed by a balance assertion falls on 9999-12-31, because the day after it cannot be represented (the importer fails with an overflow).
- Monzo.Identify: it uses the corrected name test `IsJsonName` (a `.json` ending), not the unanchored `re.match('.*\.json')`. The two differ both ways: `a.json.bak` passes the test as written but not the model's, and a name with a newline before `.json` passes the model's but not the test as written. `JsonNameRefinesAsWritten` relates them on names without a newline.
- Monzo.FileDate: it uses the same corrected name test as `Monzo.Identify`. Where the importer raises, the model returns no filing date: a non-JSON name makes `len(False)` raise a type error, and an empty list makes `transactions[-1]` raise an index error.
- Monzo.Identify: a record always has an account id, so a record without the `account_id` key cannot be represented; the importer raises a key error on one. An empty account id stands for a falsy one and is not identified. A missing merchant is `None`; the debit importer's truthiness test on the merchant object is not distinguished from that.
- Lendy.ParseStamp: only the fixed-width `YYYYMMDD.csv` stamp is parsed. The one-digit month and day forms that `strptime` also accepts report no date, and every name the intended pattern identifies is fixed-width.
- FundingCircle.FileDate: where the importer raises, the model returns no date. That covers a name without a `_`, on which `split('_')[1]` raises an index error, and a stamp that `strptime` cannot parse.
- Lendy.FileDate: where the importer raises, the model returns no date. That covers a name without a `-`, on which `split('-')[1]` raises an index error, and a stamp that `strptime` cannot parse.
- `\d` and lower-casing are modelled for ASCII only. Python also accepts other Unicode digits and case-folds non-ASCII letters.
- The corrected name patterns also drop the final newline that `$` admits. The as-written predicates keep it.

## Findings

| source | as written | input that shows it | evidently intended | confidence | as-written member | corrected member |
|---|---|---|---|---|---|---|
| ingest/importers/funding_circle.py:33 | `...\d\d.csv$`: the `.` is unescaped and matches any character | `statement_2020-01_2020-01-01_00-00-00Xcsv` is identified | only names ending in `.csv` are identified | high (not executed) | FundingCircle.NameCheckAcceptsNonCsv | FundingCircle.IdentifiedNames |
| ingest/importers/lendy.py:32 | `...\d\d.csv$`: the `.` is unescaped and matches any character | `Lendy_Statement_20200101-20200131Xcsv` is identified, yet `file_date` cannot parse it | only names ending in `.csv` are identified, so every identified name is dated by its end stamp | high (not executed) | Lendy.NameCheckAcceptsUndatable | Lendy.IdentifiedNames |
| ingest/importers/monzo_debit.py:22 | `re.match('.*\.json', ...)` has no end anchor | `export.json.bak` is taken for a JSON export | only names with a `.json` extension | medium (not executed) | Monzo.JsonNameAcceptsOtherExtensions | Monzo.JsonNameRefinesAsWritten |

The same unanchored `.json` test appears in `ingest/importers/monzo_prepaid.py:23`. The model's `Identify` and `FileDate` predicates use the corrected tests (`FundingCircle.Identify`, `Lendy.Identify`, `Monzo.IsJsonName`). `FundingCircle.IdentifyAsWritten`, `Lendy.IdentifyAsWritten` and `Monzo.IsJsonNameAsWritten` keep the tests as written.
