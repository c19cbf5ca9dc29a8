/** The Monzo current-account importer: every record of the export becomes
    exactly one entry, a note for PIN changes and declined payments and a
    transaction otherwise, with transfers between pots of the same account
    posted back to that account. */
module MonzoDebit {
  import opened Wrappers
  import opened Text
  import opened Ledger
  import opened Monzo

  datatype Config = Config(accountId: string, account: Account)

  const PotScheme := "uk_retail_pot"
  const PotNarration := "Internal pot transfer"
  const PinChangeNotes := "pin change"
  const PinChangeComment := "PIN Change"
  const ExpensesUnknown: Account := "Expenses:Unknown"

  // ---------------------------------------------------------------------
  // Payee and narration

  /** The payee: the merchant's name, else the counterparty's preferred name,
      else its name, else none. */
  function GetPayee(t: Transaction): (p: Option<string>)
    ensures p == FirstSome([ if t.merchant.Some? then Some(t.merchant.value.name) else None,
                             t.counterparty.preferedName,
                             t.counterparty.name ])
    ensures p.None? <==> t.merchant.None? && t.counterparty.preferedName.None? && t.counterparty.name.None?
  {
    FirstSomeOfThree(if t.merchant.Some? then Some(t.merchant.value.name) else None,
                     t.counterparty.preferedName, t.counterparty.name);
    if t.merchant.Some? then Some(t.merchant.value.name)
    else if t.counterparty.preferedName.Some? then t.counterparty.preferedName
    else t.counterparty.name
  }

  /** The narration: the user's notes when there are any, else the pot
      transfer text for pot transfers, else the raw description when no payee
      was found, else none. */
  function GetNarration(t: Transaction): (n: Option<string>)
    ensures n == FirstSome([ if t.notes != "" then Some(t.notes) else None,
                             if t.scheme == PotScheme then Some(PotNarration) else None,
                             if GetPayee(t).None? then Some(t.description) else None ])
    ensures n.None? <==> t.notes == "" && t.scheme != PotScheme && GetPayee(t).Some?
  {
    FirstSomeOfThree(if t.notes != "" then Some(t.notes) else None,
                     if t.scheme == PotScheme then Some(PotNarration) else None,
                     if GetPayee(t).None? then Some(t.description) else None);
    if t.notes != "" then Some(t.notes)
    else if t.scheme == PotScheme then Some(PotNarration)
    else if GetPayee(t).None? then Some(t.description)
    else None
  }

  // ---------------------------------------------------------------------
  // Notes

  /** The notes say "pin change" in any mix of upper and lower case. */
  predicate IsPinChange(t: Transaction) {
    EqualsIgnoringCase(t.notes, PinChangeNotes)
  }

  predicate IsDeclined(t: Transaction) {
    t.declineReason.Some?
  }

  predicate MakesNote(t: Transaction) {
    IsPinChange(t) || IsDeclined(t)
  }

  // ---------------------------------------------------------------------
  // Metadata

  /** The keys counterparty details can add to a transaction's metadata. */
  const CounterpartyKeys: set<string> := {"counterparty_account_number", "counterparty_sort_code",
                                          "counterparty_phone_number", "counterparty_user_id"}

  /** Counterparty details: bank account and sort code when the account number
      is given; otherwise phone number and user id when the number is given. */
  function CounterpartyMetadata(c: Counterparty): (m: Meta)
    ensures |m| == if c.bank.Some? || c.phone.Some? then 2 else 0
    ensures forall i :: 0 <= i < |m| ==> m[i].0 in CounterpartyKeys
    ensures DistinctKeys(m)
    ensures forall i :: 0 <= i < |m| ==> m[i].0 !in BaseKeys
    ensures HasKey(m, "counterparty_account_number") <==> c.bank.Some?
    ensures HasKey(m, "counterparty_sort_code") <==> c.bank.Some?
    ensures HasKey(m, "counterparty_phone_number") <==> c.bank.None? && c.phone.Some?
    ensures HasKey(m, "counterparty_user_id") <==> c.bank.None? && c.phone.Some?
    ensures c.bank.Some? ==> && Binds(m, "counterparty_account_number", Str(c.bank.value.accountNumber))
                             && Binds(m, "counterparty_sort_code", Str(c.bank.value.sortCode))
    ensures c.bank.None? && c.phone.Some? ==> && Binds(m, "counterparty_phone_number", Str(c.phone.value.number))
                                              && Binds(m, "counterparty_user_id", Str(c.phone.value.userId))
  {
    match (c.bank, c.phone)
    case (Some(b), _) =>
      var m := [("counterparty_account_number", Str(b.accountNumber)), ("counterparty_sort_code", Str(b.sortCode))];
      assert m[0].0 == "counterparty_account_number" && m[1].0 == "counterparty_sort_code";
      m
    case (None, Some(ph)) =>
      var m := [("counterparty_phone_number", Str(ph.number)), ("counterparty_user_id", Str(ph.userId))];
      assert m[0].0 == "counterparty_phone_number" && m[1].0 == "counterparty_user_id";
      m
    case (None, None) => []
  }

  /** The base metadata followed by the counterparty details. */
  function Metadata(t: Transaction): (m: Meta)
    ensures |m| >= |BaseKeys| && m[..|BaseKeys|] == BaseMetadata(t)
    ensures m[|BaseKeys|..] == CounterpartyMetadata(t.counterparty)
  {
    var base := BaseMetadata(t);
    var extra := CounterpartyMetadata(t.counterparty);
    assert (base + extra)[..|base|] == base;
    assert (base + extra)[|base|..] == extra;
    base + extra
  }

  /** The metadata holds the six base keys and the two counterparty keys
      when there are counterparty details, and no others. Its keys are
      distinct, and each counterparty key is present exactly under its
      condition. */
  lemma MetadataKeys(t: Transaction)
    ensures var m := Metadata(t);
    && |m| == |BaseKeys| + (if t.counterparty.bank.Some? || t.counterparty.phone.Some? then 2 else 0)
    && (forall i :: 0 <= i < |m| ==> m[i].0 in BaseKeys || m[i].0 in CounterpartyKeys)
    && DistinctKeys(m)
    && (HasKey(m, "counterparty_account_number") <==> t.counterparty.bank.Some?)
    && (HasKey(m, "counterparty_sort_code") <==> t.counterparty.bank.Some?)
    && (HasKey(m, "counterparty_phone_number") <==> t.counterparty.bank.None? && t.counterparty.phone.Some?)
    && (HasKey(m, "counterparty_user_id") <==> t.counterparty.bank.None? && t.counterparty.phone.Some?)
  {
    var base := BaseMetadata(t);
    var extra := CounterpartyMetadata(t.counterparty);
    assert Metadata(t) == base + extra;
    BaseMetadataKeys(t);
    DistinctKeysConcat(base, extra);
    HasKeyConcat(base, extra, "counterparty_account_number");
    HasKeyConcat(base, extra, "counterparty_sort_code");
    HasKeyConcat(base, extra, "counterparty_phone_number");
    HasKeyConcat(base, extra, "counterparty_user_id");
  }

  /** Each counterparty key that is present holds the counterparty's own
      value for it. */
  lemma MetadataValues(t: Transaction)
    ensures var m := Metadata(t);
            var c := t.counterparty;
    && (c.bank.Some? ==> && Binds(m, "counterparty_account_number", Str(c.bank.value.accountNumber))
                         && Binds(m, "counterparty_sort_code", Str(c.bank.value.sortCode)))
    && (c.bank.None? && c.phone.Some? ==> && Binds(m, "counterparty_phone_number", Str(c.phone.value.number))
                                          && Binds(m, "counterparty_user_id", Str(c.phone.value.userId)))
  {
    var base := BaseMetadata(t);
    var extra := CounterpartyMetadata(t.counterparty);
    var c := t.counterparty;
    assert Metadata(t) == base + extra;
    BaseMetadataKeys(t);
    if c.bank.Some? {
      BindsConcat(base, extra, "counterparty_account_number", Str(c.bank.value.accountNumber));
      BindsConcat(base, extra, "counterparty_sort_code", Str(c.bank.value.sortCode));
    } else if c.phone.Some? {
      BindsConcat(base, extra, "counterparty_phone_number", Str(c.phone.value.number));
      BindsConcat(base, extra, "counterparty_user_id", Str(c.phone.value.userId));
    }
  }

  /** The base metadata holds exactly the base keys. */
  lemma BaseMetadataKeys(t: Transaction)
    ensures forall k :: HasKey(BaseMetadata(t), k) <==> k in BaseKeys
  {
    var m := BaseMetadata(t);
    forall k ensures HasKey(m, k) <==> k in BaseKeys {
      if k in BaseKeys {
        var i :| 0 <= i < |BaseKeys| && BaseKeys[i] == k;
        assert m[i].0 == k;
      }
    }
  }

  // ---------------------------------------------------------------------
  // Records to entries

  /** What the importer needs of a record to turn it into an entry without
      failing: a computable price and, for a pot transfer, the pot's id. */
  predicate Postable(t: Transaction) {
    MakesNote(t) || (PriceComputable(t) && (t.scheme == PotScheme ==> t.potId.Some?))
  }

  /** The entry for one record: a note for a PIN change or a decline, else a
      two-legged transaction. */
  function EntryFor(cfg: Config, t: Transaction): Entry
    requires Postable(t)
  {
    var meta := Metadata(t);
    if IsPinChange(t) then
      Note(meta, t.createdDay, cfg.account, PinChangeComment)
    else if IsDeclined(t) then
      Note(meta, t.createdDay, cfg.account, DeclineComment(GetPayee(t), t.declineReason.value))
    else
      var first := Leg(cfg.account, Units(t), GetUnitPrice(t));
      var second :=
        if t.scheme == PotScheme then Balancing(cfg.account, None)
        else Balancing(ExpensesUnknown, Some(Warning));
      var links := if t.scheme == PotScheme then {t.potId.value} else {};
      Txn(meta, t.createdDay, Okay, GetPayee(t), GetNarration(t), links, [first, second])
  }

  /** What the entry for one record is. */
  lemma EntryForMeans(cfg: Config, t: Transaction)
    requires Postable(t)
    ensures var e := EntryFor(cfg, t);
    && !e.Balance? && e.meta == Metadata(t) && e.date == t.createdDay
    // a note exactly for PIN changes and declines; a PIN change takes priority
    && (e.Note? <==> MakesNote(t))
    && (e.Note? ==> e.account == cfg.account)
    && (IsPinChange(t) ==> e.comment == PinChangeComment)
    && (!IsPinChange(t) && IsDeclined(t) ==> e.comment == DeclineComment(GetPayee(t), t.declineReason.value))
    // a transaction: the amount and price on the account, balanced by a second posting
    && (e.Txn? ==> && TwoLegged(e) && e.flag == Okay
                   && e.payee == GetPayee(t) && e.narration == GetNarration(t)
                   && e.postings[0] == Leg(cfg.account, Units(t), GetUnitPrice(t)))
    // pot transfers post back to the account, unflagged and linked to the pot
    && (e.Txn? ==> (e.postings[1].flag.None? <==> t.scheme == PotScheme))
    && (e.Txn? && t.scheme == PotScheme ==>
          e.postings[1].account == cfg.account && e.links == {t.potId.value})
    && (e.Txn? && t.scheme != PotScheme ==>
          e.postings[1] == Balancing(ExpensesUnknown, Some(Warning)) && e.links == {})
  {
  }

  /** Exactly one entry per record, in record order. */
  function Extract(cfg: Config, ts: seq<Transaction>): seq<Entry>
    requires forall i :: 0 <= i < |ts| ==> Postable(ts[i])
  {
    seq(|ts|, i requires 0 <= i < |ts| => EntryFor(cfg, ts[i]))
  }

  /** No extraction contains a balance assertion, and every transaction in it
      is two-legged on the configured account. */
  lemma {:induction false} ExtractShape(cfg: Config, ts: seq<Transaction>)
    requires forall i :: 0 <= i < |ts| ==> Postable(ts[i])
    ensures forall e :: e in Extract(cfg, ts) ==> !e.Balance?
    ensures forall e :: e in Extract(cfg, ts) && e.Txn? ==> TwoLegged(e) && e.postings[0].account == cfg.account
  {
    var es := Extract(cfg, ts);
    forall e | e in es
      ensures !e.Balance? && (e.Txn? ==> TwoLegged(e) && e.postings[0].account == cfg.account)
    {
      var i :| 0 <= i < |es| && es[i] == e;
      EntryForMeans(cfg, ts[i]);
    }
  }

}
