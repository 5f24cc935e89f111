/** The settlement table built from the matched rows: the 차이 (difference)
    column, the sort by 주문자 (buyer) and the split into the four sheets of
    the workbook. */
module Report {
  import opened Strings
  import opened Sums
  import opened Matcher

  /** One row of the settlement table: 주문자, 입금자(사이트), 입금자(실제),
      총 구매금액, 통장입금 and 차이. */
  datatype ResultRow = ResultRow(buyer: string, sitePayer: string, actualPayer: string,
                                 purchase: int, deposit: int, difference: int)

  function RowPurchase(r: ResultRow): int { r.purchase }

  function RowDeposit(r: ResultRow): int { r.deposit }

  function RowDifference(r: ResultRow): int { r.difference }

  /** A matched row with its 차이 column, 통장입금 − 총 구매금액. */
  function Annotate(m: MatchRow): (r: ResultRow)
    ensures r.difference == r.deposit - r.purchase
    ensures r.buyer == m.buyer && r.sitePayer == m.sitePayer && r.actualPayer == m.actualPayer
    ensures r.purchase == m.purchase && r.deposit == m.deposit
  {
    ResultRow(m.buyer, m.sitePayer, m.actualPayer, m.purchase, m.deposit, m.deposit - m.purchase)
  }

  /** The matched rows with the 차이 column added, row by row. */
  function WithDifference(rows: seq<MatchRow>): (r: seq<ResultRow>)
    ensures |r| == |rows|
  {
    if rows == [] then [] else [Annotate(rows[0])] + WithDifference(rows[1..])
  }

  /** Row i of the table is matched row i with its difference. */
  lemma {:induction false} WithDifferenceRows(rows: seq<MatchRow>)
    ensures forall i :: 0 <= i < |rows| ==> WithDifference(rows)[i] == Annotate(rows[i])
  {
    if rows != [] {
      WithDifferenceRows(rows[1..]);
      assert forall i :: 0 < i < |rows| ==> WithDifference(rows)[i] == WithDifference(rows[1..])[i - 1];
    }
  }

  /** Adding the difference column keeps both amount columns, and the
      differences add up to total deposits minus total purchases. */
  lemma {:induction false} DifferenceTotals(rows: seq<MatchRow>)
    ensures Sum(WithDifference(rows), RowDeposit) == Sum(rows, Deposit)
    ensures Sum(WithDifference(rows), RowPurchase) == Sum(rows, Purchase)
    ensures Sum(WithDifference(rows), RowDifference) == Sum(rows, Deposit) - Sum(rows, Purchase)
  {
    if rows != [] {
      DifferenceTotals(rows[1..]);
    }
  }

  /** Ascending by 주문자. */
  predicate SortedByBuyer(rows: seq<ResultRow>) {
    forall i, j :: 0 <= i < j < |rows| ==> LessEq(rows[i].buyer, rows[j].buyer)
  }

  /** Every row's buyer is at or above b. */
  predicate AllAtLeast(b: string, rows: seq<ResultRow>) {
    forall i :: 0 <= i < |rows| ==> LessEq(b, rows[i].buyer)
  }

  /** A lower bound holds for any rows drawn from bounded rows. */
  lemma AtLeastSubmultiset(b: string, s: seq<ResultRow>, t: seq<ResultRow>)
    requires AllAtLeast(b, s) && multiset(t) <= multiset(s)
    ensures AllAtLeast(b, t)
  {
    forall i | 0 <= i < |t| ensures LessEq(b, t[i].buyer) {
      assert t[i] in multiset(s);
      var j :| 0 <= j < |s| && s[j] == t[i];
    }
  }

  lemma SortedCons(h: ResultRow, t: seq<ResultRow>)
    requires SortedByBuyer(t) && AllAtLeast(h.buyer, t)
    ensures SortedByBuyer([h] + t)
  {
    forall i, j | 0 <= i < j < |t| + 1 ensures LessEq(([h] + t)[i].buyer, ([h] + t)[j].buyer) {
      if i > 0 {
        assert ([h] + t)[i] == t[i - 1] && ([h] + t)[j] == t[j - 1];
      } else {
        assert ([h] + t)[j] == t[j - 1];
      }
    }
  }

  lemma SortedTail(s: seq<ResultRow>)
    requires SortedByBuyer(s) && s != []
    ensures SortedByBuyer(s[1..]) && AllAtLeast(s[0].buyer, s[1..])
  {
    forall i | 0 <= i < |s| - 1 ensures LessEq(s[0].buyer, s[1..][i].buyer) {
      assert s[1..][i] == s[i + 1];
    }
  }

  /** A row at or below the first buyer of sorted rows may go in front. */
  lemma InsertFront(x: ResultRow, s: seq<ResultRow>)
    requires SortedByBuyer(s) && s != [] && LessEq(x.buyer, s[0].buyer)
    ensures SortedByBuyer([x] + s)
  {
    SortedTail(s);
    assert AllAtLeast(x.buyer, s) by {
      forall i | 0 <= i < |s| ensures LessEq(x.buyer, s[i].buyer) {
        if i > 0 {
          LessEqTransitive(x.buyer, s[0].buyer, s[i].buyer);
        }
      }
    }
    SortedCons(x, s);
  }

  /** A row above the first buyer of sorted rows goes into their tail. */
  lemma InsertBehind(x: ResultRow, s: seq<ResultRow>, rest: seq<ResultRow>)
    requires SortedByBuyer(s) && s != [] && !LessEq(x.buyer, s[0].buyer)
    requires SortedByBuyer(rest) && multiset(rest) == multiset(s[1..]) + multiset{x}
    ensures SortedByBuyer([s[0]] + rest)
    ensures multiset([s[0]] + rest) == multiset(s) + multiset{x}
  {
    SortedTail(s);
    LessEqTotal(x.buyer, s[0].buyer);
    assert s == [s[0]] + s[1..];
    assert AllAtLeast(s[0].buyer, [x] + s[1..]);
    assert multiset(rest) == multiset([x] + s[1..]);
    AtLeastSubmultiset(s[0].buyer, [x] + s[1..], rest);
    SortedCons(s[0], rest);
  }

  /** Places x among rows already ascending by buyer. */
  function InsertByBuyer(x: ResultRow, s: seq<ResultRow>): (r: seq<ResultRow>)
    requires SortedByBuyer(s)
    ensures SortedByBuyer(r)
    ensures multiset(r) == multiset(s) + multiset{x}
  {
    if s == [] then [x]
    else if LessEq(x.buyer, s[0].buyer) then
      InsertFront(x, s);
      [x] + s
    else
      SortedTail(s);
      var rest := InsertByBuyer(x, s[1..]);
      InsertBehind(x, s, rest);
      [s[0]] + rest
  }

  /** `sort_values(by="주문자")`: the same rows, ascending by buyer. */
  function SortByBuyer(rows: seq<ResultRow>): (r: seq<ResultRow>)
    ensures SortedByBuyer(r)
    ensures multiset(r) == multiset(rows)
  {
    if rows == [] then []
    else
      assert rows == [rows[0]] + rows[1..];
      InsertByBuyer(rows[0], SortByBuyer(rows[1..]))
  }

  /** Every matched row reaches the sorted table with its difference. */
  lemma TableRow(rows: seq<MatchRow>, m: MatchRow)
    requires m in rows
    ensures Annotate(m) in SortByBuyer(WithDifference(rows))
  {
    var i :| 0 <= i < |rows| && rows[i] == m;
    WithDifferenceRows(rows);
    assert WithDifference(rows)[i] == Annotate(m);
    assert multiset(WithDifference(rows))[Annotate(m)] > 0;
  }

  /** In rows ascending by buyer, only rows without a buyer precede a row
      without a buyer. */
  lemma BuyerlessFirst(rows: seq<ResultRow>, r: ResultRow)
    requires SortedByBuyer(rows) && r in rows && r.buyer == ""
    ensures exists k :: 0 <= k < |rows| && rows[k] == r && forall i :: 0 <= i < k ==> rows[i].buyer == ""
  {
    var k :| 0 <= k < |rows| && rows[k] == r;
    assert forall i :: 0 <= i < k ==> LessEq(rows[i].buyer, rows[k].buyer);
  }

  /** Sorting keeps every column total. */
  lemma SortKeepsTotals(rows: seq<ResultRow>, f: ResultRow -> int)
    ensures Sum(SortByBuyer(rows), f) == Sum(rows, f)
  {
    SumPermutation(SortByBuyer(rows), rows, f);
  }

  /** The rows of `rows` that keep holds for, in their order. */
  function Filter(rows: seq<ResultRow>, keep: ResultRow -> bool): (r: seq<ResultRow>)
    ensures forall x :: multiset(r)[x] == if keep(x) then multiset(rows)[x] else 0
  {
    if rows == [] then []
    else
      assert rows == [rows[0]] + rows[1..];
      (if keep(rows[0]) then [rows[0]] else []) + Filter(rows[1..], keep)
  }

  /** A single row is kept exactly when keep holds for it. */
  lemma FilterOne(r: ResultRow, keep: ResultRow -> bool)
    ensures Filter([r], keep) == if keep(r) then [r] else []
  {
    assert [r][1..] == [];
    assert Filter([], keep) == [];
  }

  /** Selecting from two tables one after the other selects from each in
      turn, so the kept rows stay in table order. */
  lemma {:induction false} FilterAppend(a: seq<ResultRow>, b: seq<ResultRow>, keep: ResultRow -> bool)
    ensures Filter(a + b, keep) == Filter(a, keep) + Filter(b, keep)
  {
    if a == [] {
      assert a + b == b;
    } else {
      assert (a + b)[0] == a[0] && (a + b)[1..] == a[1..] + b;
      FilterAppend(a[1..], b, keep);
    }
  }

  /** Filtering rows that are ascending by buyer leaves them ascending. */
  lemma {:induction false} FilterSorted(rows: seq<ResultRow>, keep: ResultRow -> bool)
    requires SortedByBuyer(rows)
    ensures SortedByBuyer(Filter(rows, keep))
  {
    if rows != [] {
      SortedTail(rows);
      FilterSorted(rows[1..], keep);
      var rest := Filter(rows[1..], keep);
      if keep(rows[0]) {
        assert multiset(rest) <= multiset(rows[1..]);
        AtLeastSubmultiset(rows[0].buyer, rows[1..], rest);
        SortedCons(rows[0], rest);
      } else {
        assert [] + rest == rest;
      }
    }
  }

  /** The rows that came from an order: not both 주문자 and
      입금자(사이트) empty. */
  predicate IsB2B(r: ResultRow) {
    !(r.buyer == "" && r.sitePayer == "")
  }

  predicate IsNonB2B(r: ResultRow) {
    r.buyer == "" && r.sitePayer == ""
  }

  predicate PaidMore(r: ResultRow) {
    r.difference > 0
  }

  predicate PaidLess(r: ResultRow) {
    r.difference < 0
  }

  /** The four sheets of the workbook: "B2B", "B2B 이외",
      "B2B_더 입금된 건들" and "B2B_덜 입금된 건들". */
  datatype Sheets = Sheets(b2b: seq<ResultRow>, nonB2B: seq<ResultRow>,
                           overpaid: seq<ResultRow>, underpaid: seq<ResultRow>)

  function Classify(rows: seq<ResultRow>): Sheets {
    var b2b := Filter(rows, IsB2B);
    Sheets(b2b, Filter(rows, IsNonB2B), Filter(b2b, PaidMore), Filter(b2b, PaidLess))
  }

  /** A row is kept exactly when it is among the rows and keep holds. */
  lemma FilterMembers(rows: seq<ResultRow>, keep: ResultRow -> bool)
    ensures forall x :: x in Filter(rows, keep) <==> x in rows && keep(x)
  {
    var r := Filter(rows, keep);
    forall x ensures x in r <==> x in rows && keep(x) {
      assert x in r <==> multiset(r)[x] > 0;
      assert x in rows <==> multiset(rows)[x] > 0;
    }
  }

  /** "B2B" and "B2B 이외" split the table: every row lands in exactly one
      of them, and the rows in "B2B" are exactly those with a buyer or a
      site payer. */
  lemma ClassifyPartition(rows: seq<ResultRow>)
    ensures var w := Classify(rows);
            && multiset(w.b2b) + multiset(w.nonB2B) == multiset(rows)
            && (forall r :: r in w.b2b <==> r in rows && IsB2B(r))
            && (forall r :: r in w.nonB2B <==> r in rows && !IsB2B(r))
  {
    var b, n := Filter(rows, IsB2B), Filter(rows, IsNonB2B);
    forall r ensures (multiset(b) + multiset(n))[r] == multiset(rows)[r] {
      assert IsB2B(r) <==> !IsNonB2B(r);
    }
    assert multiset(b) + multiset(n) == multiset(rows);
    FilterMembers(rows, IsB2B);
    FilterMembers(rows, IsNonB2B);
  }

  /** Splitting the table keeps every column total. */
  lemma ClassifyTotals(rows: seq<ResultRow>, f: ResultRow -> int)
    ensures Sum(Classify(rows).b2b, f) + Sum(Classify(rows).nonB2B, f) == Sum(rows, f)
  {
    var w := Classify(rows);
    ClassifyPartition(rows);
    SumAppend(w.b2b, w.nonB2B, f);
    SumPermutation(w.b2b + w.nonB2B, rows, f);
  }

  /** The over- and under-paid sheets are disjoint parts of "B2B": the
      B2B rows with a positive and with a negative difference; a B2B row
      whose difference is 0 is in neither. */
  lemma PaidSheets(rows: seq<ResultRow>)
    ensures var w := Classify(rows);
            && multiset(w.overpaid) <= multiset(w.b2b)
            && multiset(w.underpaid) <= multiset(w.b2b)
            && multiset(w.overpaid) !! multiset(w.underpaid)
            && (forall r :: r in w.overpaid <==> r in w.b2b && r.difference > 0)
            && (forall r :: r in w.underpaid <==> r in w.b2b && r.difference < 0)
  {
    var b := Filter(rows, IsB2B);
    var more, less := Filter(b, PaidMore), Filter(b, PaidLess);
    assert multiset(more) <= multiset(b) by {
      forall r ensures multiset(more)[r] <= multiset(b)[r] { }
    }
    assert multiset(less) <= multiset(b) by {
      forall r ensures multiset(less)[r] <= multiset(b)[r] { }
    }
    assert multiset(more) !! multiset(less) by {
      forall r ensures multiset(more)[r] == 0 || multiset(less)[r] == 0 { }
    }
    FilterMembers(b, PaidMore);
    FilterMembers(b, PaidLess);
  }

  /** Every sheet keeps the table's order by buyer. */
  lemma ClassifySorted(rows: seq<ResultRow>)
    requires SortedByBuyer(rows)
    ensures var w := Classify(rows);
            SortedByBuyer(w.b2b) && SortedByBuyer(w.nonB2B) && SortedByBuyer(w.overpaid) && SortedByBuyer(w.underpaid)
  {
    FilterSorted(rows, IsB2B);
    FilterSorted(rows, IsNonB2B);
    FilterSorted(Filter(rows, IsB2B), PaidMore);
    FilterSorted(Filter(rows, IsB2B), PaidLess);
  }

  /** A row made for a deposit no order took is never a B2B row; a row made
      for an order is B2B exactly when the order group's first buyer or
      first site payer is non-empty. */
  lemma RowOrigins(o: OrderGroup, d: DepositGroup)
    ensures !IsB2B(Annotate(OrphanRow(d)))
    ensures IsB2B(Annotate(MatchedRow(o, d))) <==> o.names.buyer != "" || o.names.sitePayer != ""
    ensures IsB2B(Annotate(UnmatchedRow(o))) <==> o.names.buyer != "" || o.names.sitePayer != ""
  {
  }
}
