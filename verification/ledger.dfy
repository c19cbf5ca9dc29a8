/** The ledger entries the importers produce: notes, transactions with
    postings, and balance assertions, each carrying an ordered metadata map. */
module Ledger {
  import opened Wrappers
  import opened Calendar

  type Account = string
  type Currency = string

  /** `*` marks an entry as fine; `!` marks it for manual review. */
  datatype Flag = Okay | Warning

  /** An exact decimal number of a currency. */
  datatype Amount = Amount(number: real, currency: Currency)

  /** One leg of a transaction. A posting without units is completed by the
      ledger so that the transaction balances. */
  datatype Posting = Posting(account: Account, units: Option<Amount>, price: Option<Amount>, flag: Option<Flag>)

  datatype MetaValue = Str(s: string) | When(day: Day) | Num(n: real)

  /** Metadata: keys in insertion order, each with its value. */
  type Meta = seq<(string, MetaValue)>

  datatype Entry =
    | Note(meta: Meta, date: Day, account: Account, comment: string)
    | Txn(meta: Meta, date: Day, flag: Flag, payee: Option<string>, narration: Option<string>,
          links: set<string>, postings: seq<Posting>)
    | Balance(meta: Meta, date: Day, account: Account, amount: Amount)

  predicate HasKey(m: Meta, key: string) {
    exists i :: 0 <= i < |m| && m[i].0 == key
  }

  /** No key appears twice, as in a dictionary. */
  predicate DistinctKeys(m: Meta) {
    forall i, j :: 0 <= i < j < |m| ==> m[i].0 != m[j].0
  }

  /** A key is in joined metadata exactly when it is in either part. */
  lemma HasKeyConcat(a: Meta, b: Meta, key: string)
    ensures HasKey(a + b, key) <==> HasKey(a, key) || HasKey(b, key)
  {
    if HasKey(a, key) {
      var i :| 0 <= i < |a| && a[i].0 == key;
      assert (a + b)[i].0 == key;
    }
    if HasKey(b, key) {
      var i :| 0 <= i < |b| && b[i].0 == key;
      assert (a + b)[|a| + i].0 == key;
    }
    if HasKey(a + b, key) {
      var i :| 0 <= i < |a + b| && (a + b)[i].0 == key;
      if i >= |a| {
        assert b[i - |a|].0 == key;
      }
    }
  }

  /** Joining metadata with distinct keys and no key in common keeps the keys distinct. */
  lemma DistinctKeysConcat(a: Meta, b: Meta)
    requires DistinctKeys(a) && DistinctKeys(b)
    requires forall i :: 0 <= i < |b| ==> !HasKey(a, b[i].0)
    ensures DistinctKeys(a + b)
  {
    forall i, j | 0 <= i < j < |a + b| ensures (a + b)[i].0 != (a + b)[j].0 {
      if j >= |a| && i < |a| {
        assert !HasKey(a, b[j - |a|].0);
      }
    }
  }

  /** Every entry under `key` holds `v`: with the key present, its value is `v`. */
  predicate Binds(m: Meta, key: string, v: MetaValue) {
    forall i :: 0 <= i < |m| && m[i].0 == key ==> m[i].1 == v
  }

  /** Joined metadata binds a key as both parts do; a part without the key
      binds it to anything. */
  lemma BindsConcat(a: Meta, b: Meta, key: string, v: MetaValue)
    requires HasKey(a, key) ==> Binds(a, key, v)
    requires HasKey(b, key) ==> Binds(b, key, v)
    ensures Binds(a + b, key, v)
  {
    forall i | 0 <= i < |a + b| && (a + b)[i].0 == key ensures (a + b)[i].1 == v {
      if i < |a| {
        assert a[i] == (a + b)[i];
      } else {
        assert b[i - |a|] == (a + b)[i];
      }
    }
  }

  /** With distinct keys, the one entry under a key gives its value. */
  lemma BindsAt(m: Meta, key: string, v: MetaValue, j: nat)
    requires DistinctKeys(m) && j < |m| && m[j] == (key, v)
    ensures Binds(m, key, v)
  {
    forall i | 0 <= i < |m| && m[i].0 == key ensures m[i].1 == v {
      assert !(i < j || j < i);
    }
  }

  /** A posting of a known amount, with an optional per-unit price. */
  function Leg(account: Account, units: Amount, price: Option<Amount>): Posting {
    Posting(account, Some(units), price, None)
  }

  /** A posting whose amount the ledger fills in. */
  function Balancing(account: Account, flag: Option<Flag>): Posting {
    Posting(account, None, None, flag)
  }

  /** A transaction of two postings: the first carries the amount, the second
      carries neither amount nor price and balances it. */
  predicate TwoLegged(e: Entry) {
    && e.Txn?
    && |e.postings| == 2
    && e.postings[0].units.Some?
    && e.postings[1].units.None?
    && e.postings[1].price.None?
  }

}
