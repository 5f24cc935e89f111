/** Turning the order and deposit sheets into lines for the group-by: the
    comparison key derived from a display name and the amount coerced to a
    number. The sheets arrive already mapped to these canonical columns. */
module Normalize {
  import opened Strings
  import opened Sums
  import opened Aggregate

  /** An amount cell as `pd.to_numeric(..., errors="coerce")` sees it. */
  datatype Amount = Number(value: int) | NotNumeric | Missing

  /** One row of the site's order sheet: 주문자 (buyer), 입금자(사이트) (the
      payer name the buyer entered on the site) and 총 결제 금액 (amount). */
  datatype OrderRecord = OrderRecord(buyer: string, sitePayer: string, amount: Amount)

  /** One row of the bank statement: 입금자(실제) (payer as the bank shows
      it) and 통장입금 (amount deposited). */
  datatype DepositRecord = DepositRecord(payer: string, amount: Amount)

  /** The two name columns an order group keeps with `first`. */
  datatype OrderNames = OrderNames(buyer: string, sitePayer: string)

  /** `to_numeric(errors="coerce")` then `fillna(0)`: a number is kept, a
      cell that is not a number or is empty becomes 0. */
  function Coerce(a: Amount): (v: int)
    ensures a.Number? ==> v == a.value
    ensures !a.Number? ==> v == 0
  {
    match a
    case Number(n) => n
    case NotNumeric => 0
    case Missing => 0
  }

  /** `str.replace(" ", "")`: drops every ASCII space and nothing else. */
  function RemoveBlanks(s: string): (r: string)
    ensures forall c :: multiset(r)[c] == if c == ' ' then 0 else multiset(s)[c]
    ensures ' ' !in s ==> r == s
  {
    if s == [] then []
    else
      var rest := RemoveBlanks(s[1..]);
      assert s == [s[0]] + s[1..];
      if s[0] == ' ' then rest else [s[0]] + rest
  }

  /** Removing the blanks of a concatenation removes them part by part, so
      the characters kept stay in their order. */
  lemma {:induction false} RemoveBlanksAppend(a: string, b: string)
    ensures RemoveBlanks(a + b) == RemoveBlanks(a) + RemoveBlanks(b)
  {
    if a == [] {
      assert a + b == b;
    } else {
      assert (a + b)[0] == a[0] && (a + b)[1..] == a[1..] + b;
      RemoveBlanksAppend(a[1..], b);
    }
  }

  /** A blank disappears and any other character is kept. */
  lemma RemoveBlanksChar(c: char)
    ensures RemoveBlanks([c]) == if c == ' ' then [] else [c]
  {
    assert [c][1..] == [];
  }

  /** `str.lstrip()`: drops the leading whitespace. */
  function TrimStart(s: string): (r: string)
    ensures |r| <= |s| && r == s[|s| - |r|..]
    ensures r == [] || !IsSpace(r[0])
  {
    if s == [] || !IsSpace(s[0]) then s else TrimStart(s[1..])
  }

  /** What lstrip drops is whitespace. */
  lemma {:induction false} TrimStartDrops(s: string)
    ensures forall i :: 0 <= i < |s| - |TrimStart(s)| ==> IsSpace(s[i])
  {
    if s != [] && IsSpace(s[0]) {
      TrimStartDrops(s[1..]);
      SpacesShift(s, |s| - |TrimStart(s)|);
    }
  }

  lemma SpacesShift(s: string, n: nat)
    requires 0 < n <= |s| && IsSpace(s[0])
    requires forall i :: 0 <= i < n - 1 ==> IsSpace(s[1..][i])
    ensures forall i :: 0 <= i < n ==> IsSpace(s[i])
  {
    forall i | 1 <= i < n ensures IsSpace(s[i]) {
      assert s[i] == s[1..][i - 1];
    }
  }

  /** `str.rstrip()`: drops the trailing whitespace. */
  function TrimEnd(s: string): (r: string)
    ensures |r| <= |s| && r == s[..|r|]
    ensures r == [] || !IsSpace(r[|r| - 1])
  {
    if s == [] || !IsSpace(s[|s| - 1]) then s else TrimEnd(s[..|s| - 1])
  }

  /** What rstrip drops is whitespace. */
  lemma {:induction false} TrimEndDrops(s: string)
    ensures forall i :: |TrimEnd(s)| <= i < |s| ==> IsSpace(s[i])
  {
    if s != [] && IsSpace(s[|s| - 1]) {
      TrimEndDrops(s[..|s| - 1]);
      assert forall i :: |TrimEnd(s)| <= i < |s| - 1 ==> s[i] == s[..|s| - 1][i];
    }
  }

  /** `str.strip()`: the part of s between its leading and trailing
      whitespace. */
  function Strip(s: string): (r: string)
    ensures exists i :: OccursAt(r, s, i)
    ensures r == [] || (!IsSpace(r[0]) && !IsSpace(r[|r| - 1]))
    ensures (forall i :: 0 <= i < |s| ==> IsSpace(s[i])) ==> r == []
    ensures s == [] || (!IsSpace(s[0]) && !IsSpace(s[|s| - 1])) ==> r == s
  {
    StripOccurs(s);
    StripBlank(s);
    StripUnpadded(s);
    TrimEnd(TrimStart(s))
  }

  lemma StripOccurs(s: string)
    ensures OccursAt(TrimEnd(TrimStart(s)), s, |s| - |TrimStart(s)|)
  {
    var t := TrimStart(s);
    var u := TrimEnd(t);
    var i := |s| - |t|;
    assert t == s[i..] && u == t[..|u|];
    assert s[i..][..|u|] == s[i..i + |u|];
  }

  lemma StripBlank(s: string)
    ensures (forall i :: 0 <= i < |s| ==> IsSpace(s[i])) ==> TrimStart(s) == []
  {
    var t := TrimStart(s);
    if t != [] {
      assert t[0] == s[|s| - |t|];
    }
  }

  lemma StripUnpadded(s: string)
    ensures s == [] || (!IsSpace(s[0]) && !IsSpace(s[|s| - 1])) ==> TrimEnd(TrimStart(s)) == s
  {
  }

  /** The comparison key of a display name (입금자키): all ASCII spaces
      removed, then whitespace stripped from both ends. */
  function Key(name: string): (k: string)
    ensures ' ' !in k
    ensures k == [] || (!IsSpace(k[0]) && !IsSpace(k[|k| - 1]))
  {
    NoBlankInKey(name);
    Strip(RemoveBlanks(name))
  }

  /** A name made only of spaces has the empty key. */
  lemma KeyOfBlankName(name: string)
    requires forall i :: 0 <= i < |name| ==> name[i] == ' '
    ensures Key(name) == []
  {
    KeyOfBlanks(name);
  }

  /** A name with no space inside and no whitespace at either end is its
      own key. */
  lemma KeyOfCleanName(name: string)
    requires ' ' !in name && (name == [] || (!IsSpace(name[0]) && !IsSpace(name[|name| - 1])))
    ensures Key(name) == name
  {
    assert RemoveBlanks(name) == name;
  }

  lemma NoBlankInKey(name: string)
    ensures ' ' !in Strip(RemoveBlanks(name))
  {
    var b := RemoveBlanks(name);
    var k := Strip(b);
    assert multiset(b)[' '] == 0;
    var i :| OccursAt(k, b, i);
    assert forall j :: 0 <= j < |k| ==> k[j] == b[i + j];
  }

  lemma KeyOfBlanks(name: string)
    ensures (forall i :: 0 <= i < |name| ==> name[i] == ' ') ==> RemoveBlanks(name) == []
  {
    if forall i :: 0 <= i < |name| ==> name[i] == ' ' {
      var b := RemoveBlanks(name);
      CountAll(name, ' ');
      forall c ensures multiset(b)[c] == 0 {
        if c != ' ' {
          assert multiset(name)[c] == 0 by {
            assert multiset(name) == multiset(name)[' ' := |name|] - multiset{};
          }
        }
      }
      assert multiset(b) == multiset{};
      assert |b| == |multiset(b)| == 0;
    }
  }

  /** A string made only of c holds |s| copies of c. */
  lemma {:induction false} CountAll(s: string, c: char)
    requires forall i :: 0 <= i < |s| ==> s[i] == c
    ensures multiset(s)[c] == |s|
  {
    if s != [] {
      assert s == [s[0]] + s[1..];
      CountAll(s[1..], c);
    }
  }

  /** Deriving the key of a key gives the same key. */
  lemma KeyIdempotent(name: string)
    ensures Key(Key(name)) == Key(name)
  {
    KeyOfCleanName(Key(name));
  }

  /** An order row as a line for the group-by on its 입금자(사이트) key. */
  function OrderLine(r: OrderRecord): Line<OrderNames> {
    Line(Key(r.sitePayer), OrderNames(r.buyer, r.sitePayer), Coerce(r.amount))
  }

  /** A deposit row as a line for the group-by on its 입금자(실제) key. */
  function DepositLine(r: DepositRecord): Line<string> {
    Line(Key(r.payer), r.payer, Coerce(r.amount))
  }

  function OrderAmount(r: OrderRecord): int { Coerce(r.amount) }

  function DepositAmount(r: DepositRecord): int { Coerce(r.amount) }

  /** The order sheet as lines: row i becomes line i, every key is free of
      blanks, and the lines carry the coerced order amounts in full. */
  function OrderLines(rs: seq<OrderRecord>): (ls: seq<Line<OrderNames>>)
    ensures |ls| == |rs| && forall i :: 0 <= i < |rs| ==> ls[i] == OrderLine(rs[i])
    ensures forall i :: 0 <= i < |ls| ==> ' ' !in ls[i].key
    ensures Sum(ls, LineAmount) == Sum(rs, OrderAmount)
  {
    if rs == [] then [] else [OrderLine(rs[0])] + OrderLines(rs[1..])
  }

  /** The deposit sheet as lines: row i becomes line i, every key is free
      of blanks, and the lines carry the coerced deposit amounts in full. */
  function DepositLines(rs: seq<DepositRecord>): (ls: seq<Line<string>>)
    ensures |ls| == |rs| && forall i :: 0 <= i < |rs| ==> ls[i] == DepositLine(rs[i])
    ensures forall i :: 0 <= i < |ls| ==> ' ' !in ls[i].key
    ensures Sum(ls, LineAmount) == Sum(rs, DepositAmount)
  {
    if rs == [] then [] else [DepositLine(rs[0])] + DepositLines(rs[1..])
  }
}
