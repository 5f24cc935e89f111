/** The whole settlement: both sheets are keyed and grouped, the groups are
    matched, the 차이 column is added, the table is sorted by 주문자 and
    split into the four sheets of the workbook. */
module Reconcile {
  import opened Options
  import opened Strings
  import opened Sums
  import opened Aggregate
  import opened Normalize
  import opened Matcher
  import opened Report

  /** The settlement table and the four sheets written from it. */
  datatype Settlement = Settlement(table: seq<ResultRow>, sheets: Sheets)

  function OrderGroups(orders: seq<OrderRecord>): seq<OrderGroup> {
    Group(OrderLines(orders))
  }

  function DepositGroups(deposits: seq<DepositRecord>): seq<DepositGroup> {
    Group(DepositLines(deposits))
  }

  /** What the program computes from the two uploaded sheets. */
  function Settle(orders: seq<OrderRecord>, deposits: seq<DepositRecord>): Settlement {
    var table := SortByBuyer(WithDifference(MatchRows(OrderGroups(orders), DepositGroups(deposits))));
    Settlement(table, Classify(table))
  }

  /** There is a row to report exactly when at least one order row or one
      deposit row was uploaded. */
  lemma NoRowsIffNoRecords(orders: seq<OrderRecord>, deposits: seq<DepositRecord>)
    ensures MatchRows(OrderGroups(orders), DepositGroups(deposits)) == [] <==> orders == [] && deposits == []
  {
    GroupEmpty(OrderLines(orders));
    GroupEmpty(DepositLines(deposits));
    NoRows(OrderGroups(orders), DepositGroups(deposits));
  }

  /** The program's steps in order, with the matcher run as a loop. When
      the matcher emits no row, the table built from the rows has no
      column, computing 차이 fails and no workbook is written: the result
      is then None. Otherwise it is the settlement. */
  method Reconcile(orders: seq<OrderRecord>, deposits: seq<DepositRecord>) returns (s: Option<Settlement>)
    ensures s.None? <==> orders == [] && deposits == []
    ensures s.Some? ==> s.value == Settle(orders, deposits)
  {
    var orderGroups := Group(OrderLines(orders));
    var depositGroups := Group(DepositLines(deposits));
    var rows := Match(orderGroups, depositGroups);
    NoRowsIffNoRecords(orders, deposits);
    if rows == [] {
      return None;
    }
    var table := SortByBuyer(WithDifference(rows));
    s := Some(Settlement(table, Classify(table)));
  }

  /** Nothing is lost or double counted: the 통장입금 column of the table
      adds up to all deposits, the 총 구매금액 column to all orders (cells
      that are not numbers counting 0), and the 차이 column to their
      difference. */
  lemma SettleTotals(orders: seq<OrderRecord>, deposits: seq<DepositRecord>)
    ensures Sum(Settle(orders, deposits).table, RowDeposit) == Sum(deposits, DepositAmount)
    ensures Sum(Settle(orders, deposits).table, RowPurchase) == Sum(orders, OrderAmount)
    ensures Sum(Settle(orders, deposits).table, RowDifference) ==
            Sum(deposits, DepositAmount) - Sum(orders, OrderAmount)
  {
    var os, ds := OrderGroups(orders), DepositGroups(deposits);
    var annotated := WithDifference(MatchRows(os, ds));
    AscendingDistinct(ds);
    MatchConserves(os, ds);
    DifferenceTotals(MatchRows(os, ds));
    GroupConserves(OrderLines(orders));
    GroupConserves(DepositLines(deposits));
    SortKeepsTotals(annotated, RowDeposit);
    SortKeepsTotals(annotated, RowPurchase);
    SortKeepsTotals(annotated, RowDifference);
  }

  /** One table row per order group, plus one per deposit group that no
      order took. */
  lemma SettleRowCount(orders: seq<OrderRecord>, deposits: seq<DepositRecord>)
    ensures var os, ds := OrderGroups(orders), DepositGroups(deposits);
            |Settle(orders, deposits).table| == |os| + |ds| - Taken(MatchOrders(os, ds).picks)
  {
    var os, ds := OrderGroups(orders), DepositGroups(deposits);
    var rows := MatchRows(os, ds);
    AscendingDistinct(ds);
    MatchConserves(os, ds);
    assert |multiset(SortByBuyer(WithDifference(rows)))| == |multiset(WithDifference(rows))|;
  }

  /** The table and every sheet are ascending by buyer; "B2B" and
      "B2B 이외" split the table between them; the two payment sheets are
      disjoint parts of "B2B". */
  lemma SettleSheets(orders: seq<OrderRecord>, deposits: seq<DepositRecord>)
    ensures var s := Settle(orders, deposits);
            && SortedByBuyer(s.table)
            && SortedByBuyer(s.sheets.b2b) && SortedByBuyer(s.sheets.nonB2B)
            && SortedByBuyer(s.sheets.overpaid) && SortedByBuyer(s.sheets.underpaid)
            && multiset(s.sheets.b2b) + multiset(s.sheets.nonB2B) == multiset(s.table)
            && multiset(s.sheets.overpaid) !! multiset(s.sheets.underpaid)
            && multiset(s.sheets.overpaid) + multiset(s.sheets.underpaid) <= multiset(s.sheets.b2b)
  {
    var s := Settle(orders, deposits);
    ClassifySorted(s.table);
    ClassifyPartition(s.table);
    PaidSheets(s.table);
    var w := s.sheets;
    forall r ensures (multiset(w.overpaid) + multiset(w.underpaid))[r] <= multiset(w.b2b)[r] {
      assert multiset(w.overpaid)[r] == 0 || multiset(w.underpaid)[r] == 0;
    }
  }

  /** The sheets "B2B" and "B2B 이외" together carry all deposits and all
      purchases. */
  lemma SheetTotals(orders: seq<OrderRecord>, deposits: seq<DepositRecord>)
    ensures var w := Settle(orders, deposits).sheets;
            && Sum(w.b2b, RowDeposit) + Sum(w.nonB2B, RowDeposit) == Sum(deposits, DepositAmount)
            && Sum(w.b2b, RowPurchase) + Sum(w.nonB2B, RowPurchase) == Sum(orders, OrderAmount)
  {
    var table := Settle(orders, deposits).table;
    SettleTotals(orders, deposits);
    ClassifyTotals(table, RowDeposit);
    ClassifyTotals(table, RowPurchase);
  }

  /** Greedy matching goes by order key, not by best fit: the order "가"
      comes first in key order, is a substring of the deposit "가나" and
      takes it, so the order "가나" whose key is identical to the deposit's
      is left unmatched. */
  lemma GreedyTakesFirstFit()
    ensures var os := [Entity("가", OrderNames("갑", "가"), 100), Entity("가나", OrderNames("을", "가나"), 200)];
            var ds := [Entity("가나", "가나", 200)];
            MatchRows(os, ds) == [MatchRow("갑", "가", "가나", 100, 200), MatchRow("을", "가나", "", 200, 0)]
  {
    var os := [Entity("가", OrderNames("갑", "가"), 100), Entity("가나", OrderNames("을", "가나"), 200)];
    var ds := [Entity("가나", "가나", 200)];
    assert ds[..0] == [] && os[..1] == [os[0]] && os[..0] == [] && [os[0]][..0] == [];
    assert "가나"[..1] == "가";
    assert IsSubstring("가", "가나");
    assert FirstFit("가", ds, {}) == Some(0);
    var first := MatchOrders([os[0]], ds);
    var one := [os[0]];
    assert one[..|one| - 1] == [] && one[|one| - 1] == os[0];
    assert MatchOrders([], ds) == Progress([], {}, []);
    assert first == Step(MatchOrders([], ds), os[0], ds);
    assert [] + [MatchRow("갑", "가", "가나", 100, 200)] == [MatchRow("갑", "가", "가나", 100, 200)];
    assert {} + {"가나"} == {"가나"} && [] + [Some(0)] == [Some(0)];
    assert first == Progress([MatchRow("갑", "가", "가나", 100, 200)], {"가나"}, [Some(0)]);
    assert FirstFit("가나", ds, {"가나"}) == None;
    assert MatchOrders(os, ds).rows == [MatchRow("갑", "가", "가나", 100, 200), MatchRow("을", "가나", "", 200, 0)];
    assert Unconsumed(ds, {"가나"}) == [];
  }

  lemma DistinctLetters(a: char, b: char)
    requires a != b
    ensures !IsSubstring([a], [b])
  {
    assert [b][..1] == [b] && [b][1..] == [];
    assert !IsSubstring([a], []);
  }

  /** A deposit group whose key is compatible with no order key is
      reported on a row of its own: no buyer, no site payer, purchase 0 and
      the whole deposit as 차이. The row lands in "B2B 이외", and in the
      sorted table only rows without a buyer come before it. Stated for any
      order groups and any ascending deposit groups, as `OrderGroups` and
      `DepositGroups` produce them for `Settle`. */
  lemma OrphanDeposit(os: seq<OrderGroup>, ds: seq<DepositGroup>, j: nat)
    requires Ascending(ds) && j < |ds|
    requires forall i :: 0 <= i < |os| ==> !Compatible(os[i].key, ds[j].key)
    ensures var row := ResultRow("", "", ds[j].names, 0, ds[j].total, ds[j].total);
            var table := SortByBuyer(WithDifference(MatchRows(os, ds)));
            && row in Classify(table).nonB2B
            && exists k :: 0 <= k < |table| && table[k] == row && forall i :: 0 <= i < k ==> table[i].buyer == ""
  {
    var table := SortByBuyer(WithDifference(MatchRows(os, ds)));
    AscendingDistinct(ds);
    IncompatibleNotTaken(os, ds, j);
    LeftOverRow(os, ds, j);
    TableRow(MatchRows(os, ds), OrphanRow(ds[j]));
    BuyerlessFirst(table, Annotate(OrphanRow(ds[j])));
    FilterMembers(table, IsNonB2B);
  }

  /** The order "김" and the deposit "박": neither key contains the other,
      so the deposit gets a row of its own, which sorts first. */
  lemma OrphanDepositExample()
    ensures var os := [Entity("김", OrderNames("김씨", "김"), 300)];
            var ds := [Entity("박", "박", 500)];
            SortByBuyer(WithDifference(MatchRows(os, ds))) ==
            [ResultRow("", "", "박", 0, 500, 500), ResultRow("김씨", "김", "", 300, 0, -300)]
  {
    var os := [Entity("김", OrderNames("김씨", "김"), 300)];
    var ds := [Entity("박", "박", 500)];
    DistinctLetters('김', '박');
    DistinctLetters('박', '김');
    assert FirstFit("김", ds, {}) == None;
    assert os[..0] == [];
    assert MatchOrders(os, ds).used == {};
    assert Unconsumed(ds, {}) == ds;
    var rows := [MatchRow("김씨", "김", "", 300, 0), MatchRow("", "", "박", 0, 500)];
    assert MatchRows(os, ds) == rows;
    var annotated := WithDifference(rows);
    assert annotated == [ResultRow("김씨", "김", "", 300, 0, -300), ResultRow("", "", "박", 0, 500, 500)];
    assert Less("", "김씨");
  }

  /** The sheets of that table: the order row in "B2B" and, being short of
      300, in the under-paid sheet; the deposit row in "B2B 이외". */
  lemma OrphanDepositSheets()
    ensures var table := [ResultRow("", "", "박", 0, 500, 500), ResultRow("김씨", "김", "", 300, 0, -300)];
            Classify(table) ==
            Sheets([ResultRow("김씨", "김", "", 300, 0, -300)], [ResultRow("", "", "박", 0, 500, 500)],
                   [], [ResultRow("김씨", "김", "", 300, 0, -300)])
  {
    var orphan, order := ResultRow("", "", "박", 0, 500, 500), ResultRow("김씨", "김", "", 300, 0, -300);
    var table := [orphan, order];
    assert table[1..] == [order] && [order][1..] == [];
    assert Filter(table, IsB2B) == [order];
    assert Filter(table, IsNonB2B) == [orphan];
    assert Filter([order], PaidMore) == [];
    assert Filter([order], PaidLess) == [order];
  }
}
