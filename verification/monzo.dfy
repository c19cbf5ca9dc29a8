/** What the two Monzo importers share: the shape of one transaction record of
    a Monzo API export (already read from its JSON), the foreign-exchange unit
    price, the metadata every entry carries, and identification and filing
    date of an export. */
module Monzo {
  import opened Wrappers
  import opened Calendar
  import opened Text
  import opened Ledger

  datatype Merchant = Merchant(name: string)

  /** The counterparty's bank account; the export gives both fields together. */
  datatype BankDetails = BankDetails(accountNumber: string, sortCode: string)

  /** A counterparty reached by phone number, with their user id. */
  datatype PhoneDetails = PhoneDetails(number: string, userId: string)

  /** The counterparty object: each field may be missing. */
  datatype Counterparty = Counterparty(
    preferedName: Option<string>,
    name: Option<string>,
    bank: Option<BankDetails>,
    phone: Option<PhoneDetails>)

  /** One record of the export's transaction list. Amounts are integers in
      minor units (pence, cents). `createdDay` is the day `created` denotes;
      `potId` is the pot id in the record's own metadata, when there is one. */
  datatype Transaction = Transaction(
    id: string,
    dedupeId: string,
    accountId: string,
    description: string,
    notes: string,
    scheme: string,
    created: string,
    createdDay: Day,
    settled: string,
    updated: string,
    amount: int,
    currency: Currency,
    localAmount: int,
    localCurrency: Currency,
    merchant: Option<Merchant>,
    counterparty: Counterparty,
    declineReason: Option<string>,
    potId: Option<string>,
    isLoad: bool,
    accountBalance: int)

  function Abs(x: int): (r: nat)
    ensures r == x || r == -x
  {
    if x < 0 then -x else x
  }

  /** A minor-unit integer as an amount in whole units. */
  function MinorUnits(minor: int, currency: Currency): (a: Amount)
    ensures a.number * 100.0 == minor as real && a.currency == currency
  {
    Amount(minor as real / 100.0, currency)
  }

  /** The transaction's own amount, in its settlement currency. */
  function Units(t: Transaction): Amount {
    MinorUnits(t.amount, t.currency)
  }

  /** A price is computable unless it would divide a non-zero local amount by
      a zero settled amount (an error the importer does not guard). */
  predicate PriceComputable(t: Transaction) {
    t.localCurrency == t.currency || t.localAmount == 0 || t.amount != 0
  }

  /** The price of one unit of the settlement currency in the local currency,
      attached only to foreign-currency spending with a non-zero local amount
      (a zero local amount is a card check). */
  function GetUnitPrice(t: Transaction): (price: Option<Amount>)
    requires PriceComputable(t)
    ensures price.None? <==> t.localCurrency == t.currency || t.localAmount == 0
    ensures price.Some? ==> price.value.currency == t.localCurrency && price.value.number > 0.0
    ensures price.Some? ==> price.value.number * (Abs(t.amount) as real) == Abs(t.localAmount) as real
  {
    if t.localCurrency != t.currency && t.localAmount != 0 then
      Some(Amount(Abs(t.localAmount) as real / Abs(t.amount) as real, t.localCurrency))
    else
      None
  }

  const BaseKeys: seq<string> := [
    "bank_id", "bank_dedupe_id", "bank_description",
    "bank_created_date", "bank_settlement_date", "bank_updated_date"
  ]

  /** The record's identifiers, raw description and timestamps, kept for audit. */
  function BaseMetadata(t: Transaction): (m: Meta)
    ensures |m| == |BaseKeys| && DistinctKeys(m)
    ensures forall i :: 0 <= i < |m| ==> m[i].0 == BaseKeys[i]
    ensures && m[0].1 == Str(t.id) && m[1].1 == Str(t.dedupeId) && m[2].1 == Str(t.description)
            && m[3].1 == Str(t.created) && m[4].1 == Str(t.settled) && m[5].1 == Str(t.updated)
  {
    [ ("bank_id", Str(t.id)),
      ("bank_dedupe_id", Str(t.dedupeId)),
      ("bank_description", Str(t.description)),
      ("bank_created_date", Str(t.created)),
      ("bank_settlement_date", Str(t.settled)),
      ("bank_updated_date", Str(t.updated)) ]
  }

  /** A missing payee is written as the word `None`. */
  function PayeeText(p: Option<string>): string {
    match p
    case Some(s) => s
    case None => "None"
  }

  /** The comment of the note recording a declined payment: the payee (or
      `None`) first and the decline reason last. */
  function DeclineComment(payee: Option<string>, reason: string): (c: string)
    ensures StartsWith(c, PayeeText(payee)) && EndsWith(c, reason)
  {
    var c := PayeeText(payee) + " transaction declined with reason " + reason;
    assert c[..|PayeeText(payee)|] == PayeeText(payee);
    assert c[|c| - |reason|..] == reason;
    c
  }

  // ---------------------------------------------------------------------
  // Identification and filing date

  /** The file-name test as written: `.json` somewhere after a run of
      characters with no newline, not necessarily at the end. */
  predicate IsJsonNameAsWritten(name: string) {
    exists i :: 0 <= i && i + 5 <= |name| && '\n' !in name[..i] && name[i..i + 5] == ".json"
  }

  /** The file-name test the importers evidently intend: a `.json` extension. */
  predicate IsJsonName(name: string) {
    EndsWith(name, ".json")
  }

  /** The as-written test accepts a name that merely contains `.json`, for
      instance a backup `export.json.bak`; the intended test rejects it. */
  lemma JsonNameAcceptsOtherExtensions(name: string)
    requires IsJsonName(name) && '\n' !in name
    ensures IsJsonNameAsWritten(name + ".bak") && !IsJsonName(name + ".bak")
  {
    var i := |name| - 5;
    var bad := name + ".bak";
    assert bad[..i] == name[..i];
    assert bad[i..i + 5] == name[i..];
    assert bad[|bad| - 5..][4] == 'k';
  }

  /** Every name the intended test accepts is accepted as written. */
  lemma JsonNameRefinesAsWritten(name: string)
    requires IsJsonName(name) && '\n' !in name
    ensures IsJsonNameAsWritten(name)
  {
    var i := |name| - 5;
    assert '\n' !in name[..i];
    assert name[i..i + 5] == name[|name| - 5..];
  }

  /** An export is identified when its name is a JSON file name, its
      transaction list is non-empty, and the first record's account id is
      present and is the configured id. */
  function Identify(accountId: string, name: string, ts: seq<Transaction>): (r: bool)
    ensures r ==> IsJsonName(name) && |ts| > 0 && ts[0].accountId == accountId
    ensures r ==> accountId != ""
    ensures IsJsonName(name) && |ts| > 0 && ts[0].accountId == accountId && accountId != "" ==> r
  {
    if !IsJsonName(name) || ts == [] then false
    else ts[0].accountId != "" && ts[0].accountId == accountId
  }

  /** The filing date: the day of the last record; there is none for a
      non-JSON name or an empty list. */
  function FileDate(name: string, ts: seq<Transaction>): (r: Option<Day>)
    ensures r.Some? <==> IsJsonName(name) && |ts| > 0
    ensures r.Some? ==> r.value == ts[|ts| - 1].createdDay
  {
    if !IsJsonName(name) || ts == [] then None else Some(ts[|ts| - 1].createdDay)
  }

}
