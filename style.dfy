/** The emphasis the workbook puts on its cells: on every sheet, the 차이
    cell of each data row is highlighted by the sign of the difference, and on
    the two payment sheets the 주문자 cell is emphasised as well. */
module Style {
  import opened Options
  import opened Report

  /** The four sheets, in the order they are written. */
  datatype Sheet = B2BSheet | NonB2BSheet | OverpaidSheet | UnderpaidSheet

  function SheetName(s: Sheet): string {
    match s
    case B2BSheet => "B2B"
    case NonB2BSheet => "B2B 이외"
    case OverpaidSheet => "B2B_더 입금된 건들"
    case UnderpaidSheet => "B2B_덜 입금된 건들"
  }

  /** Each sheet has its own name, so the sheet is recovered from it. */
  lemma SheetNamesDistinct(s: Sheet, t: Sheet)
    ensures SheetName(s) == SheetName(t) <==> s == t
  {
    if s != t {
      assert |SheetName(s)| != |SheetName(t)| || (|SheetName(s)| > 4 && SheetName(s)[4] != SheetName(t)[4]);
    }
  }

  /** A cell font: left as written, bold, or red and bold. */
  datatype Font = Unchanged | Bold | RedBold

  /** A cell fill: left as written, or solid yellow (FFFF00). */
  datatype Fill = NoFill | Yellow

  datatype Emphasis = Emphasis(buyerFont: Font, differenceFont: Font, differenceFill: Fill)

  /** The emphasis of one data row of `sheet` whose 차이 cell holds diff;
      a row whose 차이 cell is empty is skipped. */
  function RowEmphasis(sheet: Sheet, diff: Option<int>): (e: Option<Emphasis>)
    ensures e.None? <==> diff.None?
  {
    match diff
    case None => None
    case Some(d) =>
      var buyer :=
        if sheet == OverpaidSheet && d > 0 then Bold
        else if sheet == UnderpaidSheet && d < 0 then RedBold
        else Unchanged;
      var font := if d > 0 then Bold else if d < 0 then RedBold else Unchanged;
      var fill := if d > 0 then Yellow else NoFill;
      Some(Emphasis(buyer, font, fill))
  }

  /** The emphasis of each data row of a sheet, top to bottom. */
  function SheetEmphasis(sheet: Sheet, rows: seq<ResultRow>): (es: seq<Option<Emphasis>>)
    ensures |es| == |rows|
  {
    seq(|rows|, i requires 0 <= i < |rows| => RowEmphasis(sheet, Some(rows[i].difference)))
  }

  /** The 차이 cell depends on the sign of the difference only, the same on
      every sheet: yellow and bold above 0, red and bold below, untouched at
      0. */
  lemma DifferenceCell(sheet: Sheet, d: int)
    ensures var e := RowEmphasis(sheet, Some(d)).value;
            && (e.differenceFill == Yellow <==> d > 0)
            && (e.differenceFont == Bold <==> d > 0)
            && (e.differenceFont == RedBold <==> d < 0)
            && (e.differenceFont == Unchanged <==> d == 0)
  {
  }

  /** The 주문자 cell is touched only on the two payment sheets, bold on
      the over-paid one and red bold on the under-paid one, and then only
      when the sign agrees with the sheet. */
  lemma BuyerCell(sheet: Sheet, d: int)
    ensures var e := RowEmphasis(sheet, Some(d)).value;
            && (e.buyerFont == Bold <==> sheet == OverpaidSheet && d > 0)
            && (e.buyerFont == RedBold <==> sheet == UnderpaidSheet && d < 0)
  {
  }

  /** On the over-paid sheet, a row with a positive difference gets a
      bold buyer and a yellow bold difference. */
  lemma PositiveRowsEmphasis(rows: seq<ResultRow>)
    requires forall i :: 0 <= i < |rows| ==> rows[i].difference > 0
    ensures forall i :: 0 <= i < |rows| ==>
              SheetEmphasis(OverpaidSheet, rows)[i] == Some(Emphasis(Bold, Bold, Yellow))
  {
    forall i | 0 <= i < |rows|
      ensures SheetEmphasis(OverpaidSheet, rows)[i] == Some(Emphasis(Bold, Bold, Yellow))
    {
      assert SheetEmphasis(OverpaidSheet, rows)[i] == RowEmphasis(OverpaidSheet, Some(rows[i].difference));
    }
  }

  /** On the under-paid sheet, a row with a negative difference gets a red
      bold buyer and a red bold difference. */
  lemma NegativeRowsEmphasis(rows: seq<ResultRow>)
    requires forall i :: 0 <= i < |rows| ==> rows[i].difference < 0
    ensures forall i :: 0 <= i < |rows| ==>
              SheetEmphasis(UnderpaidSheet, rows)[i] == Some(Emphasis(RedBold, RedBold, NoFill))
  {
    forall i | 0 <= i < |rows|
      ensures SheetEmphasis(UnderpaidSheet, rows)[i] == Some(Emphasis(RedBold, RedBold, NoFill))
    {
      assert SheetEmphasis(UnderpaidSheet, rows)[i] == RowEmphasis(UnderpaidSheet, Some(rows[i].difference));
    }
  }

  /** Every row of the over-paid sheet gets a bold buyer and a yellow bold
      difference. */
  lemma OverpaidEmphasis(rows: seq<ResultRow>)
    ensures var w := Classify(rows);
            forall i :: 0 <= i < |w.overpaid| ==>
              SheetEmphasis(OverpaidSheet, w.overpaid)[i] == Some(Emphasis(Bold, Bold, Yellow))
  {
    var w := Classify(rows);
    FilterMembers(w.b2b, PaidMore);
    forall i | 0 <= i < |w.overpaid| ensures w.overpaid[i].difference > 0 {
      assert w.overpaid[i] in w.overpaid;
    }
    PositiveRowsEmphasis(w.overpaid);
  }

  /** Every row of the under-paid sheet gets a red bold buyer and a red
      bold difference. */
  lemma UnderpaidEmphasis(rows: seq<ResultRow>)
    ensures var w := Classify(rows);
            forall i :: 0 <= i < |w.underpaid| ==>
              SheetEmphasis(UnderpaidSheet, w.underpaid)[i] == Some(Emphasis(RedBold, RedBold, NoFill))
  {
    var w := Classify(rows);
    FilterMembers(w.b2b, PaidLess);
    forall i | 0 <= i < |w.underpaid| ensures w.underpaid[i].difference < 0 {
      assert w.underpaid[i] in w.underpaid;
    }
    NegativeRowsEmphasis(w.underpaid);
  }
}
