/** Interleaving a sequence of items with optional companions: each item is
    followed by its companion when it has one. The balance assertions of the
    prepaid importer are such companions of the transactions they follow. */
module Sequences {
  import opened Wrappers

  /** The companion of an item, as a sequence of zero or one elements. */
  function Companion<T>(o: Option<T>): (s: seq<T>)
    ensures |s| == if o.Some? then 1 else 0
    ensures o.Some? ==> s[0] == o.value
  {
    match o
    case Some(x) => [x]
    case None => []
  }

  /** The first `n` items, each followed by its companion. */
  function Interleave<T>(items: seq<T>, companions: seq<Option<T>>, n: nat): seq<T>
    requires |items| == |companions| && n <= |items|
  {
    if n == 0 then [] else Interleave(items, companions, n - 1) + [items[n - 1]] + Companion(companions[n - 1])
  }

  /** How many of the first `n` items have a companion. */
  function Present<T>(companions: seq<Option<T>>, n: nat): (k: nat)
    requires n <= |companions|
    ensures k <= n
  {
    if n == 0 then 0 else Present(companions, n - 1) + (if companions[n - 1].Some? then 1 else 0)
  }

  /** The interleaving of `n` items holds those items and their companions. */
  lemma {:induction false} InterleaveLength<T>(items: seq<T>, companions: seq<Option<T>>, n: nat)
    requires |items| == |companions| && n <= |items|
    ensures |Interleave(items, companions, n)| == n + Present(companions, n)
  {
    if n > 0 {
      InterleaveLength(items, companions, n - 1);
    }
  }

  /** Interleaving more items keeps every entry of interleaving fewer where
      it was: the shorter interleaving is a prefix of the longer. */
  lemma {:induction false} InterleaveKeeps<T>(items: seq<T>, companions: seq<Option<T>>, n: nat, m: nat, k: nat)
    requires |items| == |companions| && n <= m <= |items| && k < |Interleave(items, companions, n)|
    ensures k < |Interleave(items, companions, m)|
    ensures Interleave(items, companions, m)[k] == Interleave(items, companions, n)[k]
  {
    if n < m {
      InterleaveKeeps(items, companions, n, m - 1, k);
      var a := Interleave(items, companions, m - 1);
      assert Interleave(items, companions, m) == a + [items[m - 1]] + Companion(companions[m - 1]);
      assert (a + [items[m - 1]] + Companion(companions[m - 1]))[k] == a[k];
    }
  }

  /** Where item `i` sits in the full interleaving: after the earlier items and
      their companions; it is followed by its own companion when it has one,
      else by the next item, else by nothing. */
  lemma InterleaveAt<T>(items: seq<T>, companions: seq<Option<T>>, i: nat)
    requires |items| == |companions| && i < |items|
    ensures var all := Interleave(items, companions, |items|);
            var p := i + Present(companions, i);
            && p < |all| && all[p] == items[i]
            && (companions[i].Some? ==> p + 1 < |all| && all[p + 1] == companions[i].value)
            && (companions[i].None? && i + 1 < |items| ==> p + 1 < |all| && all[p + 1] == items[i + 1])
            && (companions[i].None? && i + 1 == |items| ==> p + 1 == |all|)
  {
    var n := |items|;
    var p := i + Present(companions, i);
    var before := Interleave(items, companions, i);
    var upto := Interleave(items, companions, i + 1);
    InterleaveLength(items, companions, i);
    assert upto == before + [items[i]] + Companion(companions[i]);
    assert upto[p] == items[i];
    InterleaveKeeps(items, companions, i + 1, n, p);
    if companions[i].Some? {
      assert upto[p + 1] == companions[i].value;
      InterleaveKeeps(items, companions, i + 1, n, p + 1);
    } else if i + 1 < n {
      var next := Interleave(items, companions, i + 2);
      assert next == upto + [items[i + 1]] + Companion(companions[i + 1]);
      assert |upto| == p + 1 && next[p + 1] == items[i + 1];
      InterleaveKeeps(items, companions, i + 2, n, p + 1);
    } else {
      InterleaveLength(items, companions, n);
    }
  }

  /** The slots of item `i` and the one after it, for a caller that names the
      interleaving and the item's position: the item itself, then its
      companion when it has one; otherwise, when the slot exists, the next item. */
  lemma InterleaveSlots<T>(items: seq<T>, companions: seq<Option<T>>, i: nat, all: seq<T>, p: nat)
    requires |items| == |companions| && i < |items|
    requires all == Interleave(items, companions, |items|) && p == i + Present(companions, i)
    ensures p < |all| && all[p] == items[i]
    ensures companions[i].Some? ==> p + 1 < |all| && all[p + 1] == companions[i].value
    ensures companions[i].None? && p + 1 < |all| ==> i + 1 < |items| && all[p + 1] == items[i + 1]
  {
    InterleaveAt(items, companions, i);
  }

  /** When no item is marked and every companion is related to its item,
      every marked element of an interleaving directly follows an element it
      is related to. */
  lemma {:induction false} MarkedFollowRelated<T>(items: seq<T>, companions: seq<Option<T>>,
                                                  marked: T -> bool, related: (T, T) -> bool, n: nat)
    requires |items| == |companions| && n <= |items|
    requires forall i :: 0 <= i < |items| ==> !marked(items[i])
    requires forall i :: 0 <= i < |items| && companions[i].Some? ==> related(items[i], companions[i].value)
    ensures forall k :: 0 <= k < |Interleave(items, companions, n)| && marked(Interleave(items, companions, n)[k]) ==>
              k > 0 && related(Interleave(items, companions, n)[k - 1], Interleave(items, companions, n)[k])
  {
    if n > 0 {
      MarkedFollowRelated(items, companions, marked, related, n - 1);
      var a := Interleave(items, companions, n - 1);
      var all := a + [items[n - 1]] + Companion(companions[n - 1]);
      assert Interleave(items, companions, n) == all;
      forall k | 0 <= k < |all| && marked(all[k])
        ensures k > 0 && related(all[k - 1], all[k])
      {
        if k < |a| {
          assert all[k] == a[k];
          assert k > 0 && related(a[k - 1], a[k]);
          assert all[k - 1] == a[k - 1];
        } else {
          assert all[|a|] == items[n - 1];
          assert k == |a| + 1 && all[k] == companions[n - 1].value;
        }
      }
    }
  }

}
