/** Worked examples of the settlement, from uploaded rows to sheets. */
module Scenarios {
  import opened Options
  import opened Strings
  import opened Aggregate
  import opened Normalize
  import opened Matcher
  import opened Report
  import opened Reconcile

  /** One line forms one group. */
  lemma GroupOne<L>(l: Line<L>)
    ensures Group([l]) == [Entity(l.key, l.names, l.amount)]
  {
    assert [l][..0] == [];
  }

  /** Two lines under one key form one group with the first line's names. */
  lemma GroupTwoAlike<L>(ls: seq<Line<L>>)
    requires |ls| == 2 && ls[0].key == ls[1].key
    ensures Group(ls) == [Entity(ls[0].key, ls[0].names, ls[0].amount + ls[1].amount)]
  {
    assert ls[..1] == [ls[0]];
    GroupOne(ls[0]);
  }

  /** One order row forms one group under its site payer's key. */
  lemma OneOrderGroup(r: OrderRecord)
    ensures OrderGroups([r]) == [Entity(Key(r.sitePayer), OrderNames(r.buyer, r.sitePayer), Coerce(r.amount))]
  {
    assert OrderLines([r]) == [OrderLine(r)];
    GroupOne(OrderLine(r));
  }

  /** One deposit row forms one group under its payer's key. */
  lemma OneDepositGroup(r: DepositRecord)
    ensures DepositGroups([r]) == [Entity(Key(r.payer), r.payer, Coerce(r.amount))]
  {
    assert DepositLines([r]) == [DepositLine(r)];
    GroupOne(DepositLine(r));
  }

  lemma NoOrderGroups()
    ensures OrderGroups([]) == []
  {
    assert OrderLines([]) == [];
  }

  lemma NoDepositGroups()
    ensures DepositGroups([]) == []
  {
    assert DepositLines([]) == [];
  }

  /** A single order that takes a single deposit. */
  lemma OneMatch(o: OrderGroup, d: DepositGroup)
    requires Compatible(o.key, d.key)
    ensures MatchRows([o], [d]) == [MatchedRow(o, d)]
  {
    assert [o][..0] == [] && [d][..0] == [];
    assert FirstFit(o.key, [d], {}) == Some(0);
    assert MatchOrders([o], [d]) == Progress([MatchedRow(o, d)], {d.key}, [Some(0)]);
    assert Unconsumed([d], {d.key}) == [];
  }

  /** A single order and no deposit. */
  lemma NoMatch(o: OrderGroup)
    ensures MatchRows([o], []) == [UnmatchedRow(o)]
  {
    assert [o][..0] == [];
    assert MatchOrders([o], []) == Progress([UnmatchedRow(o)], {}, [None]);
  }

  /** A single deposit and no order. */
  lemma OnlyOrphan(d: DepositGroup)
    ensures MatchRows([], [d]) == [OrphanRow(d)]
  {
    assert [d][..0] == [];
    assert Unconsumed([d], {}) == [d];
  }

  /** When the matcher emits a single row, that row with its difference is
      the whole table. */
  lemma SettleOne(orders: seq<OrderRecord>, deposits: seq<DepositRecord>, m: MatchRow, row: ResultRow)
    requires MatchRows(OrderGroups(orders), DepositGroups(deposits)) == [m]
    requires Annotate(m) == row
    ensures Settle(orders, deposits) == Settlement([row], Classify([row]))
  {
    assert [m][1..] == [];
    assert WithDifference([m]) == [row];
    assert [row][1..] == [];
  }

  /** The group a lone order row forms. */
  function OrderGroupOf(o: OrderRecord): OrderGroup {
    var l := OrderLine(o);
    Entity(l.key, l.names, l.amount)
  }

  /** The group a lone deposit row forms. */
  function DepositGroupOf(d: DepositRecord): DepositGroup {
    var l := DepositLine(d);
    Entity(l.key, l.names, l.amount)
  }

  /** A key that starts the other key is contained in it. */
  lemma PrefixIsSubstring(a: string, b: string)
    requires |a| <= |b| && b[..|a|] == a
    ensures Compatible(a, b)
  {
  }

  /** A name with no blank inside and no white space at either end. */
  predicate Clean(name: string) {
    ' ' !in name && (name == [] || (!IsSpace(name[0]) && !IsSpace(name[|name| - 1])))
  }

  /** Clean names are their own keys, so a name that starts the other
      gives compatible keys. */
  lemma CleanPrefixKeys(a: string, b: string)
    requires Clean(a) && Clean(b) && |a| <= |b| && b[..|a|] == a
    ensures Key(a) == a && Key(b) == b && Compatible(Key(a), Key(b))
  {
    KeyOfCleanName(a);
    KeyOfCleanName(b);
    PrefixIsSubstring(a, b);
  }

  lemma MatchCompatible(o: OrderRecord, d: DepositRecord)
    requires Compatible(Key(o.sitePayer), Key(d.payer))
    ensures MatchRows(OrderGroups([o]), DepositGroups([d])) == [MatchedRow(OrderGroupOf(o), DepositGroupOf(d))]
  {
    OneOrderGroup(o);
    OneDepositGroup(d);
    OneMatch(OrderGroupOf(o), DepositGroupOf(d));
  }

  /** An order whose site payer's key is compatible with the deposit
      payer's key takes that deposit; the row carries both amounts and
      their difference. */
  lemma SettleCompatible(o: OrderRecord, d: DepositRecord)
    requires Compatible(Key(o.sitePayer), Key(d.payer))
    ensures var row := ResultRow(o.buyer, o.sitePayer, d.payer, Coerce(o.amount), Coerce(d.amount),
                                 Coerce(d.amount) - Coerce(o.amount));
            Settle([o], [d]) == Settlement([row], Classify([row]))
  {
    var m := MatchedRow(OrderGroupOf(o), DepositGroupOf(d));
    var row := ResultRow(o.buyer, o.sitePayer, d.payer, Coerce(o.amount), Coerce(d.amount), Coerce(d.amount) - Coerce(o.amount));
    MatchCompatible(o, d);
    assert Annotate(m) == row;
    SettleOne([o], [d], m, row);
  }

  /** The group of two order rows under one key. */
  function TwoOrdersGroup(os: seq<OrderRecord>): OrderGroup
    requires |os| == 2
  {
    Entity(Key(os[0].sitePayer), OrderNames(os[0].buyer, os[0].sitePayer), Coerce(os[0].amount) + Coerce(os[1].amount))
  }

  lemma MatchTwoOrders(os: seq<OrderRecord>, d: DepositRecord)
    requires |os| == 2 && Key(os[0].sitePayer) == Key(os[1].sitePayer)
    requires Compatible(Key(os[0].sitePayer), Key(d.payer))
    ensures MatchRows(OrderGroups(os), DepositGroups([d])) == [MatchedRow(TwoOrdersGroup(os), DepositGroupOf(d))]
  {
    OneDepositGroup(d);
    var ls := OrderLines(os);
    assert ls[0] == OrderLine(os[0]) && ls[1] == OrderLine(os[1]);
    GroupTwoAlike(ls);
    assert Entity(ls[0].key, ls[0].names, ls[0].amount + ls[1].amount) == TwoOrdersGroup(os);
    OneMatch(TwoOrdersGroup(os), DepositGroupOf(d));
  }

  /** An order with no deposit at all is reported unmatched, short of its
      whole purchase. */
  lemma SettleNoDeposit(o: OrderRecord)
    ensures var row := ResultRow(o.buyer, o.sitePayer, "", Coerce(o.amount), 0, -Coerce(o.amount));
            Settle([o], []) == Settlement([row], Classify([row]))
  {
    var m := UnmatchedRow(OrderGroupOf(o));
    var row := ResultRow(o.buyer, o.sitePayer, "", Coerce(o.amount), 0, -Coerce(o.amount));
    MatchNoDeposit(o);
    assert Annotate(m) == row;
    SettleOne([o], [], m, row);
  }

  lemma MatchNoDeposit(o: OrderRecord)
    ensures MatchRows(OrderGroups([o]), DepositGroups([])) == [UnmatchedRow(OrderGroupOf(o))]
  {
    OneOrderGroup(o);
    NoDepositGroups();
    NoMatch(OrderGroupOf(o));
  }

  /** A deposit with no order at all is reported on its own, over by its
      whole amount. */
  lemma SettleNoOrder(d: DepositRecord)
    ensures var row := ResultRow("", "", d.payer, 0, Coerce(d.amount), Coerce(d.amount));
            Settle([], [d]) == Settlement([row], Classify([row]))
  {
    var m := OrphanRow(DepositGroupOf(d));
    var row := ResultRow("", "", d.payer, 0, Coerce(d.amount), Coerce(d.amount));
    MatchNoOrder(d);
    assert Annotate(m) == row;
    SettleOne([], [d], m, row);
  }

  lemma MatchNoOrder(d: DepositRecord)
    ensures MatchRows(OrderGroups([]), DepositGroups([d])) == [OrphanRow(DepositGroupOf(d))]
  {
    NoOrderGroups();
    OneDepositGroup(d);
    OnlyOrphan(DepositGroupOf(d));
  }

  lemma DifferenceOne(m: MatchRow)
    ensures WithDifference([m]) == [Annotate(m)]
  {
    assert [m][1..] == [];
  }

  lemma ClassifyOne(r: ResultRow)
    ensures Classify([r]) == Sheets(if IsB2B(r) then [r] else [], if IsB2B(r) then [] else [r],
                                    if IsB2B(r) && r.difference > 0 then [r] else [],
                                    if IsB2B(r) && r.difference < 0 then [r] else [])
  {
    FilterOne(r, IsB2B);
    FilterOne(r, IsNonB2B);
    FilterOne(r, PaidMore);
    FilterOne(r, PaidLess);
    assert Filter([], PaidMore) == [] && Filter([], PaidLess) == [];
  }

  /** "Kim Minji" ordered 10000 paid by "kimminji", and "kimminji" deposited
      10000: one matched row, difference 0, in "B2B" only. */
  lemma ExactPayment()
    ensures var row := ResultRow("Kim Minji", "kimminji", "kimminji", 10000, 10000, 0);
            Settle([OrderRecord("Kim Minji", "kimminji", Number(10000))], [DepositRecord("kimminji", Number(10000))]) ==
            Settlement([row], Sheets([row], [], [], []))
  {
    CleanPrefixKeys("kimminji", "kimminji");
    SettleCompatible(OrderRecord("Kim Minji", "kimminji", Number(10000)), DepositRecord("kimminji", Number(10000)));
    ClassifyOne(ResultRow("Kim Minji", "kimminji", "kimminji", 10000, 10000, 0));
  }

  /** The site payer "leeho" is part of the bank's "leehojoon": the order
      takes that deposit, difference 0. */
  lemma PartialName()
    ensures Settle([OrderRecord("Lee Ho", "leeho", Number(5000))], [DepositRecord("leehojoon", Number(5000))]).table ==
            [ResultRow("Lee Ho", "leeho", "leehojoon", 5000, 5000, 0)]
  {
    CleanPrefixKeys("leeho", "leehojoon");
    SettleCompatible(OrderRecord("Lee Ho", "leeho", Number(5000)), DepositRecord("leehojoon", Number(5000)));
  }

  /** An order of 3000 with no deposit at all: an unmatched row short of
      3000, in "B2B" and on the under-paid sheet. */
  lemma NoDeposit()
    ensures var row := ResultRow("Park", "park", "", 3000, 0, -3000);
            Settle([OrderRecord("Park", "park", Number(3000))], []) ==
            Settlement([row], Sheets([row], [], [], [row]))
  {
    SettleNoDeposit(OrderRecord("Park", "park", Number(3000)));
    ClassifyOne(ResultRow("Park", "park", "", 3000, 0, -3000));
  }

  /** A deposit of 7000 with no order: an orphan row 7000 over, on
      "B2B 이외" and on no payment sheet. */
  lemma NoOrder()
    ensures var row := ResultRow("", "", "choi", 0, 7000, 7000);
            Settle([], [DepositRecord("choi", Number(7000))]) ==
            Settlement([row], Sheets([], [row], [], []))
  {
    SettleNoOrder(DepositRecord("choi", Number(7000)));
    ClassifyOne(ResultRow("", "", "choi", 0, 7000, 7000));
  }

  /** Two orders under the key "hong", of 1000 and 2000, form one group of
      3000 that takes the deposit of 3000, leaving a difference of 0. */
  lemma SplitOrder()
    ensures var os := [OrderRecord("Hong", "hong", Number(1000)), OrderRecord("Hong", "hong", Number(2000))];
            WithDifference(MatchRows(OrderGroups(os), DepositGroups([DepositRecord("hong", Number(3000))]))) ==
            [ResultRow("Hong", "hong", "hong", 3000, 3000, 0)]
  {
    var os := [OrderRecord("Hong", "hong", Number(1000)), OrderRecord("Hong", "hong", Number(2000))];
    var d := DepositRecord("hong", Number(3000));
    CleanPrefixKeys("hong", "hong");
    MatchTwoOrders(os, d);
    DifferenceOne(MatchedRow(TwoOrdersGroup(os), DepositGroupOf(d)));
  }
}
