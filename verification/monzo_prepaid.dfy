/** The Monzo prepaid-card importer: every record becomes a note or a
    transaction, and balance assertions are interleaved with them — one after
    every tenth record that is a transaction, and one after the last record
    when that record is a transaction and no balance assertion was written at
    a multiple of ten. */
module MonzoPrepaid {
  import opened Wrappers
  import opened Calendar
  import opened Text
  import opened Ledger
  import opened Monzo
  import opened Sequences
  import MonzoDebit

  datatype Config = Config(accountId: string, account: Account, defaultTransferAccount: Account)

  const PinChangeNotes := "PIN change"
  const PinChangeComment := "PIN Change"
  const TransferNarration := "Transfer"
  const ExpensesUnknown: Account := "Expenses:Unknown"
  /** A balance assertion follows every record whose 1-based position is a
      multiple of this. */
  const BalanceInterval := 10

  // ---------------------------------------------------------------------
  // Payee and narration

  /** The payee is the merchant's name; there is none without a merchant. */
  function GetPayee(t: Transaction): (p: Option<string>)
    ensures p.Some? <==> t.merchant.Some?
    ensures p.Some? ==> p.value == t.merchant.value.name
  {
    match t.merchant
    case Some(m) => Some(m.name)
    case None => None
  }

  /** The narration: the user's notes when there are any, else the raw
      description when there is no payee, else none. */
  function GetNarration(t: Transaction): (n: Option<string>)
    ensures t.notes != "" ==> n == Some(t.notes)
    ensures t.notes == "" ==> (n.Some? <==> GetPayee(t).None?)
    ensures t.notes == "" && n.Some? ==> n.value == t.description
  {
    if t.notes != "" then Some(t.notes)
    else if GetPayee(t).None? then Some(t.description)
    else None
  }

  /** Where a merchant is known both importers name it as the payee. */
  lemma PayeeAgreesWithDebit(t: Transaction)
    requires t.merchant.Some?
    ensures GetPayee(t) == MonzoDebit.GetPayee(t)
  {
  }

  // ---------------------------------------------------------------------
  // Notes

  /** The notes are exactly "PIN change", with this capitalisation. */
  predicate IsPinChange(t: Transaction) {
    t.notes == PinChangeNotes
  }

  predicate IsDeclined(t: Transaction) {
    t.declineReason.Some?
  }

  predicate MakesNote(t: Transaction) {
    IsPinChange(t) || IsDeclined(t)
  }

  /** The prepaid importer's PIN-change test is stricter than the current
      account importer's: it compares case-sensitively, so notes written
      "pin change" are a PIN change to the one and not to the other. */
  lemma PinChangeStricterThanDebit(t: Transaction)
    ensures IsPinChange(t) ==> MonzoDebit.IsPinChange(t)
    ensures t.notes == MonzoDebit.PinChangeNotes ==> MonzoDebit.IsPinChange(t) && !IsPinChange(t)
  {
    if IsPinChange(t) {
      assert forall i :: 0 <= i < |t.notes| ==> LowerChar(t.notes[i]) == MonzoDebit.PinChangeNotes[i];
      assert Lower(t.notes) == Lower(MonzoDebit.PinChangeNotes);
    }
    if t.notes == MonzoDebit.PinChangeNotes {
      assert t.notes[0] != PinChangeNotes[0];
      assert Lower(t.notes) == Lower(MonzoDebit.PinChangeNotes);
    }
  }

  // ---------------------------------------------------------------------
  // Records to entries

  /** What the importer needs of a record to turn it into an entry without
      failing: a computable price. */
  predicate Postable(t: Transaction) {
    MakesNote(t) || PriceComputable(t)
  }

  /** The entry for one record. A top-up (a load) is a transfer from the
      default transfer account; anything else is spending on an unknown
      expense. */
  function EntryFor(cfg: Config, t: Transaction): (e: Entry)
    requires Postable(t)
    ensures !e.Balance? && e.date == t.createdDay
    ensures e.Txn? <==> !MakesNote(t)
    ensures e.Txn? ==> TwoLegged(e) && e.postings[0].account == cfg.account
                       && e.postings[0].units == Some(Units(t))
  {
    var meta := BaseMetadata(t);
    if IsPinChange(t) then
      Note(meta, t.createdDay, cfg.account, PinChangeComment)
    else if IsDeclined(t) then
      Note(meta, t.createdDay, cfg.account, DeclineComment(GetPayee(t), t.declineReason.value))
    else
      var first := Leg(cfg.account, Units(t), GetUnitPrice(t));
      var narration := if t.isLoad then Some(TransferNarration) else GetNarration(t);
      var second := Balancing(if t.isLoad then cfg.defaultTransferAccount else ExpensesUnknown, Some(Warning));
      Txn(meta, t.createdDay, Okay, GetPayee(t), narration, {}, [first, second])
  }

  /** What the entry for one record is: a note for a PIN change or a
      decline, with the PIN change taking priority; else a transaction whose
      second posting is always flagged for review. */
  lemma EntryForMeans(cfg: Config, t: Transaction)
    requires Postable(t)
    ensures var e := EntryFor(cfg, t);
    && e.meta == BaseMetadata(t)
    && (e.Note? <==> MakesNote(t))
    && (e.Note? ==> e.account == cfg.account)
    && (IsPinChange(t) ==> e.comment == PinChangeComment)
    && (!IsPinChange(t) && IsDeclined(t) ==> e.comment == DeclineComment(GetPayee(t), t.declineReason.value))
    && (e.Txn? ==> && e.flag == Okay && e.links == {} && e.payee == GetPayee(t)
                   && e.postings[0] == Leg(cfg.account, Units(t), GetUnitPrice(t))
                   && e.postings[1].flag == Some(Warning))
    // a top-up is a transfer in from the default transfer account
    && (e.Txn? && t.isLoad ==>
          e.narration == Some(TransferNarration) && e.postings[1].account == cfg.defaultTransferAccount)
    && (e.Txn? && !t.isLoad ==>
          e.narration == GetNarration(t) && e.postings[1].account == ExpensesUnknown)
  {
  }

  /** The balance assertion after a record: the account's balance after the
      record, asserted at the start of the following day. */
  function BalanceFor(cfg: Config, t: Transaction): (e: Entry)
    requires t.createdDay != LastDay
    ensures e.Balance? && e.meta == [] && e.account == cfg.account
    ensures Before(t.createdDay, e.date) && e.date == NextDay(t.createdDay)
    ensures e.amount.number * 100.0 == t.accountBalance as real && e.amount.currency == t.currency
  {
    Balance([], NextDay(t.createdDay), cfg.account, MinorUnits(t.accountBalance, t.currency))
  }

  // ---------------------------------------------------------------------
  // Where the balance assertions go

  /** Among the first `n` records there is one at a multiple-of-ten position
      that is a transaction, so a balance assertion has already been written. */
  predicate TenthSeen(ts: seq<Transaction>, n: nat)
    requires n <= |ts|
  {
    n > 0 && ((n % BalanceInterval == 0 && !MakesNote(ts[n - 1])) || TenthSeen(ts, n - 1))
  }

  /** A balance assertion follows the record at 1-based position `n`: it is a
      transaction, and its position is a multiple of ten or it is the last
      record and no balance assertion came before it. */
  predicate BalanceAfter(ts: seq<Transaction>, n: nat)
    requires 1 <= n <= |ts|
  {
    !MakesNote(ts[n - 1]) && (n % BalanceInterval == 0 || (n == |ts| && !TenthSeen(ts, n - 1)))
  }

  /** Every record can be posted, and a record followed by a balance
      assertion is not on the last representable day. */
  predicate Extractable(ts: seq<Transaction>) {
    && (forall i :: 0 <= i < |ts| ==> Postable(ts[i]))
    && (forall n :: 1 <= n <= |ts| && BalanceAfter(ts, n) ==> ts[n - 1].createdDay != LastDay)
  }

  /** The entry for each record, in order. */
  function Entries(cfg: Config, ts: seq<Transaction>): seq<Entry>
    requires Extractable(ts)
  {
    seq(|ts|, i requires 0 <= i < |ts| => EntryFor(cfg, ts[i]))
  }

  /** The balance assertion due after each record, if one is. */
  function Balances(cfg: Config, ts: seq<Transaction>): seq<Option<Entry>>
    requires Extractable(ts)
  {
    seq(|ts|, i requires 0 <= i < |ts| =>
      if BalanceAfter(ts, i + 1) then Some(BalanceFor(cfg, ts[i])) else None)
  }

  /** The entries written for the first `n` records: each record's entry,
      followed by its balance assertion when one is due. */
  function Scheduled(cfg: Config, ts: seq<Transaction>, n: nat): seq<Entry>
    requires Extractable(ts) && n <= |ts|
  {
    Interleave(Entries(cfg, ts), Balances(cfg, ts), n)
  }

  /** How many of the first `n` records are followed by a balance assertion. */
  function BalancesAmong(ts: seq<Transaction>, n: nat): nat
    requires n <= |ts|
  {
    if n == 0 then 0 else BalancesAmong(ts, n - 1) + (if BalanceAfter(ts, n) then 1 else 0)
  }

  /** The importer's loop: a running 1-based count of records and the count
      at which the last balance assertion was written, which tells whether a
      final one is due. */
  method Extract(cfg: Config, ts: seq<Transaction>) returns (entries: seq<Entry>)
    requires Extractable(ts)
    ensures entries == Scheduled(cfg, ts, |ts|)
  {
    entries := [];
    var totalCount := |ts|;
    var count := 0;
    var lastBalanceLine := 0;
    while count < totalCount
      invariant count <= |ts|
      invariant entries == Scheduled(cfg, ts, count)
      invariant count < |ts| ==> (lastBalanceLine < 5 <==> !TenthSeen(ts, count))
    {
      var t := ts[count];
      ScheduledStep(cfg, ts, count);
      BalanceDue(ts, count + 1, lastBalanceLine);
      count := count + 1;
      if MakesNote(t) {
        entries := entries + [EntryFor(cfg, t)];
      } else {
        entries := entries + [EntryFor(cfg, t)];
        if count % BalanceInterval == 0 || (count == totalCount && lastBalanceLine < 5) {
          lastBalanceLine := count;
          entries := entries + [BalanceFor(cfg, t)];
        }
      }
    }
  }

  /** The importer's test for a balance assertion after the record at
      1-based position `n`, given the count at which the last one was
      written, is the schedule's; and the running count stays below five
      exactly until a balance assertion is written at a multiple of ten. */
  lemma BalanceDue(ts: seq<Transaction>, n: nat, lastBalanceLine: int)
    requires 1 <= n <= |ts|
    requires n - 1 < |ts| ==> (lastBalanceLine < 5 <==> !TenthSeen(ts, n - 1))
    ensures BalanceAfter(ts, n) <==>
              !MakesNote(ts[n - 1]) && (n % BalanceInterval == 0 || (n == |ts| && lastBalanceLine < 5))
    ensures n < |ts| && !MakesNote(ts[n - 1]) && n % BalanceInterval == 0 ==> TenthSeen(ts, n) && n >= 5
    ensures n < |ts| && !(!MakesNote(ts[n - 1]) && n % BalanceInterval == 0) ==>
              (lastBalanceLine < 5 <==> !TenthSeen(ts, n))
  {
  }

  /** One more record adds its entry and, when due, its balance assertion. */
  lemma ScheduledStep(cfg: Config, ts: seq<Transaction>, n: nat)
    requires Extractable(ts) && n < |ts|
    ensures Scheduled(cfg, ts, n + 1) ==
              Scheduled(cfg, ts, n) + [EntryFor(cfg, ts[n])]
              + (if BalanceAfter(ts, n + 1) then [BalanceFor(cfg, ts[n])] else [])
  {
    assert Entries(cfg, ts)[n] == EntryFor(cfg, ts[n]);
    assert Companion(Balances(cfg, ts)[n]) ==
             (if BalanceAfter(ts, n + 1) then [BalanceFor(cfg, ts[n])] else []);
  }

  // ---------------------------------------------------------------------
  // Properties of the schedule

  /** A balance assertion has been written among the first `n` records
      exactly when one of them at a multiple-of-ten position is a transaction. */
  lemma {:induction false} TenthSeenMeans(ts: seq<Transaction>, n: nat)
    requires n <= |ts|
    ensures TenthSeen(ts, n) <==>
              exists m :: 1 <= m <= n && m % BalanceInterval == 0 && !MakesNote(ts[m - 1])
  {
    if n > 0 {
      TenthSeenMeans(ts, n - 1);
      if !TenthSeen(ts, n) {
        forall m | 1 <= m <= n && m % BalanceInterval == 0
          ensures MakesNote(ts[m - 1])
        {
          if m == n {
          } else {
            assert !(exists m' :: 1 <= m' <= n - 1 && m' % BalanceInterval == 0 && !MakesNote(ts[m' - 1]));
            assert 1 <= m <= n - 1;
          }
        }
      }
    }
  }

  /** The balance assertions counted record by record are those the
      interleaving holds. */
  lemma {:induction false} BalancesAmongPresent(cfg: Config, ts: seq<Transaction>, n: nat)
    requires Extractable(ts) && n <= |ts|
    ensures BalancesAmong(ts, n) == Present(Balances(cfg, ts), n)
  {
    if n > 0 {
      BalancesAmongPresent(cfg, ts, n - 1);
    }
  }

  /** Where each record's entry sits in the output: the record at index `i`
      gives the entry at position `p`, which is `i` plus the balance
      assertions written after the records before it. */
  lemma ScheduleAt(cfg: Config, ts: seq<Transaction>, i: nat, p: nat)
    requires Extractable(ts) && i < |ts| && p == i + BalancesAmong(ts, i)
    ensures p < |Scheduled(cfg, ts, |ts|)|
    ensures Scheduled(cfg, ts, |ts|)[p] == EntryFor(cfg, ts[i])
  {
    ScheduledIsInterleave(cfg, ts);
    BalancesAmongPresent(cfg, ts, i);
    EntrySlot(cfg, ts, i, Scheduled(cfg, ts, |ts|), p);
  }

  /** The entry after a record's entry, at position `p`, is a balance
      assertion exactly when one is due after that record, and then it is
      that record's balance. */
  lemma BalanceAt(cfg: Config, ts: seq<Transaction>, i: nat, p: nat)
    requires Extractable(ts) && i < |ts| && p == i + BalancesAmong(ts, i)
    ensures var es := Scheduled(cfg, ts, |ts|);
            && (BalanceAfter(ts, i + 1) <==> p + 1 < |es| && es[p + 1].Balance?)
            && (BalanceAfter(ts, i + 1) ==> es[p + 1] == BalanceFor(cfg, ts[i]))
  {
    ScheduledIsInterleave(cfg, ts);
    BalancesAmongPresent(cfg, ts, i);
    SlotAt(cfg, ts, i, Scheduled(cfg, ts, |ts|), p);
  }

  /** The output is the interleaving of the records' entries with their
      balance assertions. */
  lemma ScheduledIsInterleave(cfg: Config, ts: seq<Transaction>)
    requires Extractable(ts)
    ensures Scheduled(cfg, ts, |ts|) == Interleave(Entries(cfg, ts), Balances(cfg, ts), |ts|)
  {
  }

  /** In the interleaving `es`, a record's entry sits at its position `p`. */
  lemma EntrySlot(cfg: Config, ts: seq<Transaction>, i: nat, es: seq<Entry>, p: nat)
    requires Extractable(ts) && i < |ts|
    requires es == Interleave(Entries(cfg, ts), Balances(cfg, ts), |ts|)
    requires p == i + Present(Balances(cfg, ts), i)
    ensures p < |es| && es[p] == EntryFor(cfg, ts[i])
  {
    InterleaveSlots(Entries(cfg, ts), Balances(cfg, ts), i, es, p);
    EntryOf(cfg, ts, i);
  }

  /** In the interleaving `es`, the slot after a record's entry at position
      `p` holds that record's balance assertion exactly when one is due. */
  lemma SlotAt(cfg: Config, ts: seq<Transaction>, i: nat, es: seq<Entry>, p: nat)
    requires Extractable(ts) && i < |ts|
    requires es == Interleave(Entries(cfg, ts), Balances(cfg, ts), |ts|)
    requires p == i + Present(Balances(cfg, ts), i)
    ensures BalanceAfter(ts, i + 1) <==> p + 1 < |es| && es[p + 1].Balance?
    ensures BalanceAfter(ts, i + 1) ==> es[p + 1] == BalanceFor(cfg, ts[i])
  {
    CompanionAt(cfg, ts, i);
    if BalanceAfter(ts, i + 1) {
      BalanceSlot(cfg, ts, i, es, p);
    } else {
      NoBalanceSlot(cfg, ts, i, es, p);
    }
  }

  /** The companion of a record is its balance assertion when one is due. */
  lemma CompanionAt(cfg: Config, ts: seq<Transaction>, i: nat)
    requires Extractable(ts) && i < |ts|
    ensures Balances(cfg, ts)[i] == if BalanceAfter(ts, i + 1) then Some(BalanceFor(cfg, ts[i])) else None
  {
  }

  /** A due balance assertion sits right after its record's entry. */
  lemma BalanceSlot(cfg: Config, ts: seq<Transaction>, i: nat, es: seq<Entry>, p: nat)
    requires Extractable(ts) && i < |ts| && Balances(cfg, ts)[i].Some?
    requires es == Interleave(Entries(cfg, ts), Balances(cfg, ts), |ts|)
    requires p == i + Present(Balances(cfg, ts), i)
    ensures p + 1 < |es| && es[p + 1] == Balances(cfg, ts)[i].value
  {
    InterleaveSlots(Entries(cfg, ts), Balances(cfg, ts), i, es, p);
  }

  /** A record without a balance assertion due has its entry followed by the
      next record's entry, which is no balance assertion, or by nothing. */
  lemma NoBalanceSlot(cfg: Config, ts: seq<Transaction>, i: nat, es: seq<Entry>, p: nat)
    requires Extractable(ts) && i < |ts| && Balances(cfg, ts)[i].None?
    requires es == Interleave(Entries(cfg, ts), Balances(cfg, ts), |ts|)
    requires p == i + Present(Balances(cfg, ts), i)
    ensures !(p + 1 < |es| && es[p + 1].Balance?)
  {
    InterleaveSlots(Entries(cfg, ts), Balances(cfg, ts), i, es, p);
    if i + 1 < |ts| {
      EntryIsNoBalance(cfg, ts, i + 1);
    }
  }

  /** The entries are the records' entries, in record order. */
  lemma EntryOf(cfg: Config, ts: seq<Transaction>, k: nat)
    requires Extractable(ts) && k < |ts|
    ensures Entries(cfg, ts)[k] == EntryFor(cfg, ts[k])
  {
  }

  /** A record's own entry is a note or a transaction. */
  lemma EntryIsNoBalance(cfg: Config, ts: seq<Transaction>, k: nat)
    requires Extractable(ts) && k < |ts|
    ensures !Entries(cfg, ts)[k].Balance?
  {
  }

  /** A balance assertion checks the transaction before it: it is on the same
      account and currency, and dated the day after. */
  predicate Checks(txn: Entry, balance: Entry) {
    && balance.Balance? && TwoLegged(txn)
    && txn.date != LastDay && balance.date == NextDay(txn.date)
    && balance.account == txn.postings[0].account
    && balance.amount.currency == txn.postings[0].units.value.currency
  }

  /** Every balance assertion directly follows the transaction it checks. */
  lemma BalanceFollowsTxn(cfg: Config, ts: seq<Transaction>)
    requires Extractable(ts)
    ensures var es := Scheduled(cfg, ts, |ts|);
            forall k :: 0 <= k < |es| && es[k].Balance? ==> k > 0 && Checks(es[k - 1], es[k])
  {
    var items := Entries(cfg, ts);
    var companions := Balances(cfg, ts);
    forall i | 0 <= i < |items| && companions[i].Some?
      ensures Checks(items[i], companions[i].value)
    {
      assert BalanceAfter(ts, i + 1);
    }
    MarkedFollowRelated(items, companions, (e: Entry) => e.Balance?, Checks, |ts|);
  }

  /** Without notes, a balance assertion is already written after ten
      records. */
  lemma {:induction false} NoNotesTenthSeen(ts: seq<Transaction>, n: nat)
    requires n <= |ts|
    requires forall i :: 0 <= i < |ts| ==> !MakesNote(ts[i])
    ensures TenthSeen(ts, n) <==> n >= BalanceInterval
  {
    if n > 0 {
      NoNotesTenthSeen(ts, n - 1);
    }
  }

  /** Without notes, a balance assertion follows every tenth record, and one
      more follows the last record of a list shorter than ten. */
  lemma {:induction false} NoNotesBalanceCount(ts: seq<Transaction>, n: nat)
    requires n <= |ts|
    requires forall i :: 0 <= i < |ts| ==> !MakesNote(ts[i])
    ensures BalancesAmong(ts, n) ==
              n / BalanceInterval + (if n == |ts| && 0 < n < BalanceInterval then 1 else 0)
  {
    if n > 0 {
      NoNotesBalanceCount(ts, n - 1);
      NoNotesTenthSeen(ts, n - 1);
    }
  }

  /** The whole output of a list without notes: one transaction per record
      and the balance assertions the count above gives. */
  lemma NoNotesOutputLength(cfg: Config, ts: seq<Transaction>)
    requires Extractable(ts)
    requires forall i :: 0 <= i < |ts| ==> !MakesNote(ts[i])
    ensures |Scheduled(cfg, ts, |ts|)| ==
              |ts| + |ts| / BalanceInterval + (if 0 < |ts| < BalanceInterval then 1 else 0)
  {
    InterleaveLength(Entries(cfg, ts), Balances(cfg, ts), |ts|);
    BalancesAmongPresent(cfg, ts, |ts|);
    NoNotesBalanceCount(ts, |ts|);
  }

}
