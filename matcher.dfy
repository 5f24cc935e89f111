/** The greedy fuzzy matcher: each order group, in ascending key order, takes
    the first deposit group (also in ascending key order) that has not been
    used yet and whose key is a substring of the order's key or the other way
    round. Unmatched orders get an empty payer and a zero deposit; every
    deposit group left unused afterwards gets a row of its own. */
module Matcher {
  import opened Options
  import opened Strings
  import opened Sums
  import opened Aggregate
  import opened Normalize

  type OrderGroup = Entity<OrderNames>
  type DepositGroup = Entity<string>

  /** One entry of the matched rows: 주문자, 입금자(사이트), 입금자(실제),
      총 구매금액 (purchase) and 통장입금 (deposit). */
  datatype MatchRow = MatchRow(buyer: string, sitePayer: string, actualPayer: string,
                               purchase: int, deposit: int)

  function Purchase(r: MatchRow): int { r.purchase }

  function Deposit(r: MatchRow): int { r.deposit }

  function MatchedRow(o: OrderGroup, d: DepositGroup): MatchRow {
    MatchRow(o.names.buyer, o.names.sitePayer, d.names, o.total, d.total)
  }

  function UnmatchedRow(o: OrderGroup): MatchRow {
    MatchRow(o.names.buyer, o.names.sitePayer, "", o.total, 0)
  }

  function OrphanRow(d: DepositGroup): MatchRow {
    MatchRow("", "", d.names, 0, d.total)
  }

  /** `site_key in deposit_key or deposit_key in site_key`. */
  predicate Compatible(orderKey: string, depositKey: string) {
    IsSubstring(orderKey, depositKey) || IsSubstring(depositKey, orderKey)
  }

  /** Deposit d can still be taken by an order with key k. */
  predicate Available(k: string, d: DepositGroup, used: set<string>) {
    Compatible(k, d.key) && d.key !in used
  }

  predicate DistinctKeys<L>(es: seq<Entity<L>>) {
    forall i, j :: 0 <= i < j < |es| ==> es[i].key != es[j].key
  }

  lemma AscendingDistinct<L>(es: seq<Entity<L>>)
    requires Ascending(es)
    ensures DistinctKeys(es)
  {
    forall i, j | 0 <= i < j < |es| ensures es[i].key != es[j].key {
      LessIrreflexive(es[i].key);
    }
  }

  /** The index of the first deposit the order with key k can take. */
  function FirstFit(k: string, ds: seq<DepositGroup>, used: set<string>): (r: Option<nat>)
    ensures r.Some? ==> r.value < |ds| && Available(k, ds[r.value], used)
  {
    if ds == [] then None
    else
      var init := ds[..|ds| - 1];
      match FirstFit(k, init, used)
      case Some(j) => Some(j)
      case None => if Available(k, ds[|ds| - 1], used) then Some(|ds| - 1) else None
  }

  /** No deposit before the one picked could be taken; when none is
      picked, no deposit at all could be taken. */
  lemma {:induction false} FirstFitIsFirst(k: string, ds: seq<DepositGroup>, used: set<string>)
    ensures var r := FirstFit(k, ds, used);
            && (r.Some? ==> forall j :: 0 <= j < r.value ==> !Available(k, ds[j], used))
            && (r.None? ==> forall j :: 0 <= j < |ds| ==> !Available(k, ds[j], used))
  {
    if ds != [] {
      var init := ds[..|ds| - 1];
      FirstFitIsFirst(k, init, used);
      assert forall j :: 0 <= j < |init| ==> ds[j] == init[j];
    }
  }

  /** The state of the order loop: the rows emitted so far, the set
      used_deposit_keys, and (for the proofs) which deposit each order took. */
  datatype Progress = Progress(rows: seq<MatchRow>, used: set<string>, picks: seq<Option<nat>>)

  /** One iteration of the order loop. */
  function Step(p: Progress, o: OrderGroup, ds: seq<DepositGroup>): Progress {
    match FirstFit(o.key, ds, p.used)
    case Some(j) => Progress(p.rows + [MatchedRow(o, ds[j])], p.used + {ds[j].key}, p.picks + [Some(j)])
    case None => Progress(p.rows + [UnmatchedRow(o)], p.used, p.picks + [None])
  }

  /** The row an order gets when it took deposit `pick` (or none). */
  function RowFor(o: OrderGroup, pick: Option<nat>, ds: seq<DepositGroup>): MatchRow
    requires pick.Some? ==> pick.value < |ds|
  {
    match pick
    case Some(j) => MatchedRow(o, ds[j])
    case None => UnmatchedRow(o)
  }

  /** The order loop over all of os. */
  function MatchOrders(os: seq<OrderGroup>, ds: seq<DepositGroup>): (p: Progress)
    ensures |p.rows| == |os| && |p.picks| == |os|
  {
    if os == [] then Progress([], {}, [])
    else Step(MatchOrders(os[..|os| - 1], ds), os[|os| - 1], ds)
  }

  /** Row i is built from order i and the deposit it took, if any. */
  lemma {:induction false} RowsFollowPicks(os: seq<OrderGroup>, ds: seq<DepositGroup>)
    ensures var p := MatchOrders(os, ds);
            forall i :: 0 <= i < |os| ==>
              (p.picks[i].Some? ==> p.picks[i].value < |ds|) && p.rows[i] == RowFor(os[i], p.picks[i], ds)
  {
    if os != [] {
      var init := os[..|os| - 1];
      RowsFollowPicks(init, ds);
      var p := MatchOrders(init, ds);
      var r := Step(p, os[|os| - 1], ds);
      assert forall i :: 0 <= i < |init| ==> r.picks[i] == p.picks[i] && r.rows[i] == p.rows[i] && os[i] == init[i];
    }
  }

  /** The keys of the deposits picked, those out of range left aside. */
  function TakenKeys(picks: seq<Option<nat>>, ds: seq<DepositGroup>): set<string> {
    if picks == [] then {}
    else
      var last := picks[|picks| - 1];
      TakenKeys(picks[..|picks| - 1], ds) + (if last.Some? && last.value < |ds| then {ds[last.value].key} else {})
  }

  lemma {:induction false} TakenKeysMembers(picks: seq<Option<nat>>, ds: seq<DepositGroup>)
    ensures forall k :: k in TakenKeys(picks, ds) <==>
              exists i :: 0 <= i < |picks| && picks[i].Some? && picks[i].value < |ds| && ds[picks[i].value].key == k
  {
    if picks != [] {
      var init := picks[..|picks| - 1];
      TakenKeysMembers(init, ds);
      forall k ensures k in TakenKeys(picks, ds) <==>
              exists i :: 0 <= i < |picks| && picks[i].Some? && picks[i].value < |ds| && ds[picks[i].value].key == k
      {
        if exists i :: 0 <= i < |picks| && picks[i].Some? && picks[i].value < |ds| && ds[picks[i].value].key == k {
          var i :| 0 <= i < |picks| && picks[i].Some? && picks[i].value < |ds| && ds[picks[i].value].key == k;
          if i < |init| {
            assert init[i] == picks[i];
          }
        }
        if k in TakenKeys(init, ds) {
          var i :| 0 <= i < |init| && init[i].Some? && init[i].value < |ds| && ds[init[i].value].key == k;
          assert picks[i] == init[i];
        }
      }
    }
  }

  /** The used set is exactly the set of keys of the deposits taken. */
  lemma {:induction false} UsedIsTaken(os: seq<OrderGroup>, ds: seq<DepositGroup>)
    ensures MatchOrders(os, ds).used == TakenKeys(MatchOrders(os, ds).picks, ds)
  {
    if os != [] {
      var init := os[..|os| - 1];
      UsedIsTaken(init, ds);
      var p := MatchOrders(init, ds);
      var r := Step(p, os[|os| - 1], ds);
      assert r.picks[..|r.picks| - 1] == p.picks;
    }
  }

  /** What the order loop emits: one row per order, in order; each row
      carries the deposit the order took, or an empty payer and 0; the used
      set is exactly the set of keys of the deposits taken. */
  lemma OrderRows(os: seq<OrderGroup>, ds: seq<DepositGroup>)
    ensures var p := MatchOrders(os, ds);
            && (forall i :: 0 <= i < |os| ==> p.picks[i].Some? ==> p.picks[i].value < |ds|)
            && (forall i :: 0 <= i < |os| ==> p.rows[i] == RowFor(os[i], p.picks[i], ds))
            && (forall k :: k in p.used <==>
                  exists i :: 0 <= i < |os| && p.picks[i].Some? && ds[p.picks[i].value].key == k)
  {
    RowsFollowPicks(os, ds);
    UsedIsTaken(os, ds);
    TakenKeysMembers(MatchOrders(os, ds).picks, ds);
  }

  /** The deposits whose key is not in used, in their original order
      (`deposit_grouped[~deposit_grouped["입금자키"].isin(used_deposit_keys)]`). */
  function Unconsumed(ds: seq<DepositGroup>, used: set<string>): (r: seq<DepositGroup>)
    ensures |r| <= |ds|
  {
    if ds == [] then []
    else
      var last := ds[|ds| - 1];
      Unconsumed(ds[..|ds| - 1], used) + (if last.key in used then [] else [last])
  }

  /** Exactly the deposits whose key was not used are left over. */
  lemma {:induction false} UnconsumedMembers(ds: seq<DepositGroup>, used: set<string>)
    ensures forall d :: d in Unconsumed(ds, used) <==> d in ds && d.key !in used
  {
    if ds != [] {
      var init, last := ds[..|ds| - 1], ds[|ds| - 1];
      UnconsumedMembers(init, used);
      assert ds == init + [last];
    }
  }

  function OrphanRows(us: seq<DepositGroup>): (r: seq<MatchRow>)
    ensures |r| == |us|
  {
    if us == [] then [] else OrphanRows(us[..|us| - 1]) + [OrphanRow(us[|us| - 1])]
  }

  /** Every deposit left over has its orphan row. */
  lemma {:induction false} OrphanRowsMembers(us: seq<DepositGroup>)
    ensures forall d :: d in us ==> OrphanRow(d) in OrphanRows(us)
  {
    if us != [] {
      var init, last := us[..|us| - 1], us[|us| - 1];
      OrphanRowsMembers(init);
      assert us == init + [last];
      assert OrphanRows(us) == OrphanRows(init) + [OrphanRow(last)];
    }
  }

  /** All rows the matcher emits: the order rows, then one row per unused
      deposit. */
  function MatchRows(os: seq<OrderGroup>, ds: seq<DepositGroup>): seq<MatchRow> {
    var p := MatchOrders(os, ds);
    p.rows + OrphanRows(Unconsumed(ds, p.used))
  }

  lemma MatchOrdersSnoc(os: seq<OrderGroup>, ds: seq<DepositGroup>, i: nat)
    requires i < |os|
    ensures MatchOrders(os[..i + 1], ds) == Step(MatchOrders(os[..i], ds), os[i], ds)
  {
    assert os[..i + 1][..i] == os[..i];
  }

  lemma UnconsumedSnoc(ds: seq<DepositGroup>, used: set<string>, j: nat)
    requires j < |ds|
    ensures OrphanRows(Unconsumed(ds[..j + 1], used)) ==
            OrphanRows(Unconsumed(ds[..j], used)) + (if ds[j].key in used then [] else [OrphanRow(ds[j])])
  {
    var pre := ds[..j + 1];
    assert pre[..|pre| - 1] == ds[..j] && pre[|pre| - 1] == ds[j];
    var u := Unconsumed(ds[..j], used);
    assert Unconsumed(pre, used) == u + (if ds[j].key in used then [] else [ds[j]]);
    if ds[j].key !in used {
      assert (u + [ds[j]])[..|u|] == u;
      assert OrphanRows(u + [ds[j]]) == OrphanRows(u) + [OrphanRow(ds[j])];
    } else {
      assert u + [] == u;
    }
  }

  /** Running the order loop on a prefix of the orders gives a prefix of
      its rows and choices. */
  lemma {:induction false} MatchOrdersPrefix(os: seq<OrderGroup>, ds: seq<DepositGroup>, n: nat)
    requires n <= |os|
    ensures MatchOrders(os[..n], ds).picks == MatchOrders(os, ds).picks[..n]
    ensures MatchOrders(os[..n], ds).rows == MatchOrders(os, ds).rows[..n]
  {
    if n < |os| {
      var init := os[..|os| - 1];
      assert init[..n] == os[..n];
      MatchOrdersPrefix(init, ds, n);
    } else {
      assert os[..n] == os;
    }
  }

  /** Order i takes the first deposit, in deposit order, that it is
      compatible with and that no earlier order took. */
  lemma GreedyChoice(os: seq<OrderGroup>, ds: seq<DepositGroup>, i: nat)
    requires i < |os|
    ensures MatchOrders(os, ds).picks[i] == FirstFit(os[i].key, ds, MatchOrders(os[..i], ds).used)
  {
    MatchOrdersPrefix(os, ds, i + 1);
    MatchOrdersSnoc(os, ds, i);
  }

  /** No deposit is taken by two orders: two orders that both matched took
      deposits with different keys. */
  lemma AtMostOnce(os: seq<OrderGroup>, ds: seq<DepositGroup>, i: nat, i': nat)
    requires i < i' < |os|
    requires MatchOrders(os, ds).picks[i].Some? && MatchOrders(os, ds).picks[i'].Some?
    ensures MatchOrders(os, ds).picks[i].value != MatchOrders(os, ds).picks[i'].value
    ensures MatchOrders(os, ds).picks[i].value < |ds| && MatchOrders(os, ds).picks[i'].value < |ds|
    ensures ds[MatchOrders(os, ds).picks[i].value].key != ds[MatchOrders(os, ds).picks[i'].value].key
  {
    var picks := MatchOrders(os, ds).picks;
    GreedyChoice(os, ds, i');
    OrderRows(os[..i'], ds);
    MatchOrdersPrefix(os, ds, i');
    OrderRows(os, ds);
    assert MatchOrders(os[..i'], ds).picks[i] == picks[i];
  }

  /** With distinct deposit keys, the key of deposit j is among the taken
      keys exactly when some order picked deposit j. */
  lemma {:induction false} TakenIff(picks: seq<Option<nat>>, ds: seq<DepositGroup>, j: nat)
    requires DistinctKeys(ds) && j < |ds|
    ensures ds[j].key in TakenKeys(picks, ds) <==> exists i :: 0 <= i < |picks| && picks[i] == Some(j)
  {
    if picks != [] {
      var init, last := picks[..|picks| - 1], picks[|picks| - 1];
      TakenIff(init, ds, j);
      if exists i :: 0 <= i < |init| && init[i] == Some(j) {
        var i :| 0 <= i < |init| && init[i] == Some(j);
        assert picks[i] == Some(j);
      }
      if exists i :: 0 <= i < |picks| && picks[i] == Some(j) {
        var i :| 0 <= i < |picks| && picks[i] == Some(j);
        if i < |init| {
          assert init[i] == Some(j);
        }
      }
    }
  }

  /** With distinct deposit keys (as the group-by guarantees), a deposit is
      left over exactly when no order took it. */
  lemma LeftOverIffNotTaken(os: seq<OrderGroup>, ds: seq<DepositGroup>, j: nat)
    requires DistinctKeys(ds) && j < |ds|
    ensures var p := MatchOrders(os, ds);
            ds[j] in Unconsumed(ds, p.used) <==> forall i :: 0 <= i < |os| ==> p.picks[i] != Some(j)
  {
    var p := MatchOrders(os, ds);
    UsedIsTaken(os, ds);
    TakenIff(p.picks, ds, j);
    UnconsumedMembers(ds, p.used);
  }

  /** A deposit whose key is compatible with no order's key is taken by
      no order. */
  lemma IncompatibleNotTaken(os: seq<OrderGroup>, ds: seq<DepositGroup>, j: nat)
    requires j < |ds|
    requires forall i :: 0 <= i < |os| ==> !Compatible(os[i].key, ds[j].key)
    ensures forall i :: 0 <= i < |os| ==> MatchOrders(os, ds).picks[i] != Some(j)
  {
    forall i | 0 <= i < |os| ensures MatchOrders(os, ds).picks[i] != Some(j) {
      GreedyChoice(os, ds, i);
    }
  }

  /** A deposit no order took gets its orphan row among the matcher's
      rows. */
  lemma LeftOverRow(os: seq<OrderGroup>, ds: seq<DepositGroup>, j: nat)
    requires DistinctKeys(ds) && j < |ds|
    requires forall i :: 0 <= i < |os| ==> MatchOrders(os, ds).picks[i] != Some(j)
    ensures OrphanRow(ds[j]) in MatchRows(os, ds)
  {
    var p := MatchOrders(os, ds);
    LeftOverIffNotTaken(os, ds, j);
    OrphanRowsMembers(Unconsumed(ds, p.used));
  }

  /** The matcher emits no row exactly when there is neither an order nor
      a deposit. */
  lemma NoRows(os: seq<OrderGroup>, ds: seq<DepositGroup>)
    ensures MatchRows(os, ds) == [] <==> os == [] && ds == []
  {
    if os == [] {
      UnconsumedNone(ds);
    }
  }

  /** The number of orders that took a deposit. */
  function Taken(picks: seq<Option<nat>>): (n: nat)
    ensures n <= |picks|
  {
    if picks == [] then 0
    else Taken(picks[..|picks| - 1]) + (if picks[|picks| - 1].Some? then 1 else 0)
  }

  lemma {:induction false} UnconsumedNone(ds: seq<DepositGroup>)
    ensures Unconsumed(ds, {}) == ds
  {
    if ds != [] {
      UnconsumedNone(ds[..|ds| - 1]);
      assert ds == ds[..|ds| - 1] + [ds[|ds| - 1]];
    }
  }

  /** Using the key of deposit j removes deposit j, and only it, from the
      left-over deposits. */
  lemma {:induction false} UnconsumedRemove(ds: seq<DepositGroup>, used: set<string>, j: nat)
    requires DistinctKeys(ds) && j < |ds| && ds[j].key !in used
    ensures Sum(Unconsumed(ds, used), EntityTotal) ==
            Sum(Unconsumed(ds, used + {ds[j].key}), EntityTotal) + ds[j].total
    ensures |Unconsumed(ds, used)| == |Unconsumed(ds, used + {ds[j].key})| + 1
  {
    var init, last := ds[..|ds| - 1], ds[|ds| - 1];
    var k := ds[j].key;
    assert DistinctKeys(init);
    assert Unconsumed(ds, used) == Unconsumed(init, used) + (if last.key in used then [] else [last]);
    assert Unconsumed(ds, used + {k}) ==
           Unconsumed(init, used + {k}) + (if last.key in used + {k} then [] else [last]);
    if j == |ds| - 1 {
      assert forall d :: d in init ==> d.key != k;
      UnconsumedKeep(init, used, k);
      assert Unconsumed(ds, used + {k}) == Unconsumed(init, used) + [];
      assert Unconsumed(init, used) + [] == Unconsumed(init, used);
      SumSnoc(Unconsumed(init, used), last, EntityTotal);
    } else {
      assert init[j] == ds[j];
      UnconsumedRemove(init, used, j);
      assert last.key != k;
      if last.key !in used {
        assert last.key !in used + {k};
        SumSnoc(Unconsumed(init, used), last, EntityTotal);
        SumSnoc(Unconsumed(init, used + {k}), last, EntityTotal);
      } else {
        assert Unconsumed(init, used) + [] == Unconsumed(init, used);
        assert Unconsumed(init, used + {k}) + [] == Unconsumed(init, used + {k});
      }
    }
  }

  /** Adding a key that no deposit has changes nothing. */
  lemma {:induction false} UnconsumedKeep(ds: seq<DepositGroup>, used: set<string>, k: string)
    requires forall d :: d in ds ==> d.key != k
    ensures Unconsumed(ds, used + {k}) == Unconsumed(ds, used)
  {
    if ds != [] {
      UnconsumedKeep(ds[..|ds| - 1], used, k);
    }
  }

  /** The order loop hands each deposit amount either to an order row or
      leaves it in the pool of unused deposits. */
  lemma {:induction false} DepositBalance(os: seq<OrderGroup>, ds: seq<DepositGroup>)
    requires DistinctKeys(ds)
    ensures var p := MatchOrders(os, ds);
            Sum(p.rows, Deposit) + Sum(Unconsumed(ds, p.used), EntityTotal) == Sum(ds, EntityTotal)
  {
    if os == [] {
      UnconsumedNone(ds);
    } else {
      var init, last := os[..|os| - 1], os[|os| - 1];
      DepositBalance(init, ds);
      var p := MatchOrders(init, ds);
      match FirstFit(last.key, ds, p.used)
      case Some(j) =>
        UnconsumedRemove(ds, p.used, j);
        SumSnoc(p.rows, MatchedRow(last, ds[j]), Deposit);
      case None =>
        SumSnoc(p.rows, UnmatchedRow(last), Deposit);
    }
  }

  /** The order rows carry every order group's purchase amount. */
  lemma {:induction false} PurchaseBalance(os: seq<OrderGroup>, ds: seq<DepositGroup>)
    ensures Sum(MatchOrders(os, ds).rows, Purchase) == Sum(os, EntityTotal)
  {
    if os != [] {
      var init, last := os[..|os| - 1], os[|os| - 1];
      PurchaseBalance(init, ds);
      var p := MatchOrders(init, ds);
      assert os == init + [last];
      SumSnoc(init, last, EntityTotal);
      match FirstFit(last.key, ds, p.used)
      case Some(j) =>
        SumSnoc(p.rows, MatchedRow(last, ds[j]), Purchase);
      case None =>
        SumSnoc(p.rows, UnmatchedRow(last), Purchase);
    }
  }

  /** Each matched order removes exactly one deposit from the pool. */
  lemma {:induction false} PoolShrinks(os: seq<OrderGroup>, ds: seq<DepositGroup>)
    requires DistinctKeys(ds)
    ensures var p := MatchOrders(os, ds);
            |Unconsumed(ds, p.used)| + Taken(p.picks) == |ds|
  {
    if os == [] {
      UnconsumedNone(ds);
    } else {
      var init, last := os[..|os| - 1], os[|os| - 1];
      PoolShrinks(init, ds);
      var p := MatchOrders(init, ds);
      var q := Step(p, last, ds);
      assert q.picks[..|q.picks| - 1] == p.picks;
      match FirstFit(last.key, ds, p.used)
      case Some(j) =>
        UnconsumedRemove(ds, p.used, j);
      case None =>
    }
  }

  lemma OrderLoopBalance(os: seq<OrderGroup>, ds: seq<DepositGroup>)
    requires DistinctKeys(ds)
    ensures var p := MatchOrders(os, ds);
            && Sum(p.rows, Deposit) + Sum(Unconsumed(ds, p.used), EntityTotal) == Sum(ds, EntityTotal)
            && Sum(p.rows, Purchase) == Sum(os, EntityTotal)
            && |Unconsumed(ds, p.used)| + Taken(p.picks) == |ds|
  {
    DepositBalance(os, ds);
    PurchaseBalance(os, ds);
    PoolShrinks(os, ds);
  }

  lemma {:induction false} OrphanSums(us: seq<DepositGroup>)
    ensures Sum(OrphanRows(us), Deposit) == Sum(us, EntityTotal)
    ensures Sum(OrphanRows(us), Purchase) == 0
  {
    if us != [] {
      var init, last := us[..|us| - 1], us[|us| - 1];
      OrphanSums(init);
      SumSnoc(OrphanRows(init), OrphanRow(last), Deposit);
      SumSnoc(OrphanRows(init), OrphanRow(last), Purchase);
      SumSnoc(init, last, EntityTotal);
      assert us == init + [last];
    }
  }

  /** Over all rows, the deposits add up to the deposit groups' total. */
  lemma DepositsConserved(os: seq<OrderGroup>, ds: seq<DepositGroup>)
    requires DistinctKeys(ds)
    ensures Sum(MatchRows(os, ds), Deposit) == Sum(ds, EntityTotal)
  {
    var p := MatchOrders(os, ds);
    var orphans := OrphanRows(Unconsumed(ds, p.used));
    OrderLoopBalance(os, ds);
    OrphanSums(Unconsumed(ds, p.used));
    SumAppend(p.rows, orphans, Deposit);
  }

  /** Over all rows, the purchases add up to the order groups' total. */
  lemma PurchasesConserved(os: seq<OrderGroup>, ds: seq<DepositGroup>)
    requires DistinctKeys(ds)
    ensures Sum(MatchRows(os, ds), Purchase) == Sum(os, EntityTotal)
  {
    var p := MatchOrders(os, ds);
    var orphans := OrphanRows(Unconsumed(ds, p.used));
    OrderLoopBalance(os, ds);
    OrphanSums(Unconsumed(ds, p.used));
    SumAppend(p.rows, orphans, Purchase);
  }

  /** There is one row per order plus one per deposit no order took. */
  lemma RowCount(os: seq<OrderGroup>, ds: seq<DepositGroup>)
    requires DistinctKeys(ds)
    ensures |MatchRows(os, ds)| == |os| + |ds| - Taken(MatchOrders(os, ds).picks)
  {
    OrderLoopBalance(os, ds);
  }

  /** Conservation: over all rows, the deposits add up to the deposit
      groups' total and the purchases to the order groups' total; there is
      one row per order plus one per deposit no order took. */
  lemma MatchConserves(os: seq<OrderGroup>, ds: seq<DepositGroup>)
    requires DistinctKeys(ds)
    ensures Sum(MatchRows(os, ds), Deposit) == Sum(ds, EntityTotal)
    ensures Sum(MatchRows(os, ds), Purchase) == Sum(os, EntityTotal)
    ensures |MatchRows(os, ds)| == |os| + |ds| - Taken(MatchOrders(os, ds).picks)
  {
    DepositsConserved(os, ds);
    PurchasesConserved(os, ds);
    RowCount(os, ds);
  }

  /** The inner loop of the matcher: scans the deposits in order and stops
      at the first one the order can take. */
  method FindDeposit(key: string, deposits: seq<DepositGroup>, used: set<string>) returns (pick: Option<nat>)
    ensures pick == FirstFit(key, deposits, used)
  {
    pick := None;
    for j := 0 to |deposits|
      invariant pick.None?
      invariant forall m :: 0 <= m < j ==> !Available(key, deposits[m], used)
    {
      if Available(key, deposits[j], used) {
        pick := Some(j);
        break;
      }
    }
    FirstFitIsFirst(key, deposits, used);
  }

  /** The loop over the deposits left unused: each deposit whose key is
      not in used gets a row of its own, in deposit order. */
  method AddOrphans(rows: seq<MatchRow>, deposits: seq<DepositGroup>, used: set<string>) returns (out: seq<MatchRow>)
    ensures out == rows + OrphanRows(Unconsumed(deposits, used))
  {
    out := rows;
    for j := 0 to |deposits|
      invariant out == rows + OrphanRows(Unconsumed(deposits[..j], used))
    {
      UnconsumedSnoc(deposits, used, j);
      if deposits[j].key !in used {
        out := out + [OrphanRow(deposits[j])];
      }
    }
    assert deposits[..|deposits|] == deposits;
  }

  /** The matcher as the program runs it: for each order, the first
      deposit it can take, recorded in the set of used deposit keys; then
      a row for each deposit left unused. */
  method Match(orders: seq<OrderGroup>, deposits: seq<DepositGroup>) returns (rows: seq<MatchRow>)
    ensures rows == MatchRows(orders, deposits)
  {
    rows := [];
    var used: set<string> := {};
    for i := 0 to |orders|
      invariant rows == MatchOrders(orders[..i], deposits).rows
      invariant used == MatchOrders(orders[..i], deposits).used
    {
      MatchOrdersSnoc(orders, deposits, i);
      var order := orders[i];
      var pick := FindDeposit(order.key, deposits, used);
      match pick
      case Some(j) =>
        rows := rows + [MatchedRow(order, deposits[j])];
        used := used + {deposits[j].key};
      case None =>
        rows := rows + [UnmatchedRow(order)];
    }
    assert orders[..|orders|] == orders;
    rows := AddOrphans(rows, deposits, used);
  }
}
