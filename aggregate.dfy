/** The group-by step: pandas `groupby(key, as_index=False).agg(...)` with
    `first` for the name columns and `sum` for the amount column. pandas
    sorts the group keys, so the aggregated sequence is in ascending key
    order, one entity per distinct key. */
module Aggregate {
  import opened Options
  import opened Strings
  import opened Sums

  /** One normalised input record: its comparison key, the name columns kept
      with `first`, and the coerced amount. */
  datatype Line<L> = Line(key: string, names: L, amount: int)

  /** One group: the key, the first-seen names, and the summed amount. */
  datatype Entity<L> = Entity(key: string, names: L, total: int)

  function LineAmount<L>(l: Line<L>): int { l.amount }

  function EntityTotal<L>(e: Entity<L>): int { e.total }

  /** Keys strictly ascending, hence also pairwise distinct. */
  predicate Ascending<L>(es: seq<Entity<L>>) {
    forall i, j :: 0 <= i < j < |es| ==> Less(es[i].key, es[j].key)
  }

  predicate HasKey<L>(lines: seq<Line<L>>, k: string) {
    exists i :: 0 <= i < |lines| && lines[i].key == k
  }

  /** The sum of the amounts of the lines whose key is k. */
  function Total<L>(lines: seq<Line<L>>, k: string): int {
    if lines == [] then 0
    else
      var last := lines[|lines| - 1];
      Total(lines[..|lines| - 1], k) + (if last.key == k then last.amount else 0)
  }

  /** names are the names of the first line whose key is k. */
  ghost predicate IsFirstNames<L>(lines: seq<Line<L>>, k: string, names: L) {
    exists i :: 0 <= i < |lines| && lines[i].key == k && lines[i].names == names &&
                forall j :: 0 <= j < i ==> lines[j].key != k
  }

  /** The entity of es whose key is k, if there is one. */
  function Find<L>(es: seq<Entity<L>>, k: string): (r: Option<Entity<L>>)
    ensures r.Some? ==> r.value in es && r.value.key == k
    ensures r.None? ==> forall e :: e in es ==> e.key != k
  {
    if es == [] then None
    else if es[0].key == k then Some(es[0])
    else Find(es[1..], k)
  }

  /** In an ascending sequence, every entity is the one found under its key. */
  lemma {:induction false} FindAscending<L>(es: seq<Entity<L>>, j: int)
    requires Ascending(es) && 0 <= j < |es|
    ensures Find(es, es[j].key) == Some(es[j])
  {
    if j > 0 {
      LessIrreflexive(es[0].key);
      assert Ascending(es[1..]);
      assert es[1..][j - 1] == es[j];
      FindAscending(es[1..], j - 1);
    }
  }

  /** What one more line does to the group of its key. */
  function Absorb<L>(found: Option<Entity<L>>, l: Line<L>): Entity<L> {
    match found
    case None => Entity(l.key, l.names, l.amount)
    case Some(e) => Entity(e.key, e.names, e.total + l.amount)
  }

  /** Adds one line to an ascending sequence of groups. */
  function Insert<L>(es: seq<Entity<L>>, l: Line<L>): (r: seq<Entity<L>>)
    requires Ascending(es)
    ensures Ascending(r)
    ensures forall e :: e in r ==> e.key == l.key || e in es
  {
    if es == [] then [Entity(l.key, l.names, l.amount)]
    else if es[0].key == l.key then [Absorb(Some(es[0]), l)] + es[1..]
    else if Less(l.key, es[0].key) then
      assert forall e :: e in es ==> Less(l.key, e.key) by {
        forall e | e in es ensures Less(l.key, e.key) {
          if e != es[0] { LessTransitive(l.key, es[0].key, e.key); }
        }
      }
      LessIrreflexive(l.key);
      var r := [Entity(l.key, l.names, l.amount)] + es;
      assert r[1..] == es;
      r
    else
      LessTrichotomy(l.key, es[0].key);
      assert Ascending(es[1..]);
      var rest := Insert(es[1..], l);
      assert forall e :: e in rest ==> Less(es[0].key, e.key);
      [es[0]] + rest
  }

  /** After the insertion, the group under the line's key has absorbed the
      line and every other group is as it was. */
  lemma {:induction false} InsertFind<L>(es: seq<Entity<L>>, l: Line<L>)
    requires Ascending(es)
    ensures forall k :: Find(Insert(es, l), k) == if k == l.key then Some(Absorb(Find(es, k), l)) else Find(es, k)
  {
    if es != [] {
      var r := Insert(es, l);
      if es[0].key == l.key {
        assert r[0] == Absorb(Some(es[0]), l) && r[1..] == es[1..];
      } else if Less(l.key, es[0].key) {
        assert r[1..] == es;
        assert Find(es, l.key) == None by {
          forall e | e in es ensures e.key != l.key {
            if e != es[0] {
              LessTransitive(l.key, es[0].key, e.key);
            }
            LessIrreflexive(l.key);
          }
        }
      } else {
        assert Ascending(es[1..]);
        InsertFind(es[1..], l);
        assert r == [es[0]] + Insert(es[1..], l);
        assert r[1..] == Insert(es[1..], l);
      }
    }
  }

  /** r is the aggregate of lines: one entity per key that occurs, in
      ascending key order, carrying that key's summed amount and the names
      of the first line with that key. */
  ghost predicate Summarises<L>(r: seq<Entity<L>>, lines: seq<Line<L>>) {
    && Ascending(r)
    && (forall k :: Find(r, k).Some? <==> HasKey(lines, k))
    && (forall k :: Total(lines, k) == if Find(r, k).Some? then Find(r, k).value.total else 0)
    && (forall k :: Find(r, k).Some? ==> IsFirstNames(lines, k, Find(r, k).value.names))
  }

  /** Aggregates the lines, first to last. */
  function Group<L>(lines: seq<Line<L>>): (r: seq<Entity<L>>)
    ensures Ascending(r)
  {
    if lines == [] then [] else Insert(Group(lines[..|lines| - 1]), lines[|lines| - 1])
  }

  /** There is a group as soon as there is a line. */
  lemma GroupEmpty<L>(lines: seq<Line<L>>)
    ensures Group(lines) == [] <==> lines == []
  {
  }

  /** The aggregate has one entity per key of the lines, in ascending key
      order, with that key's total and first-seen names. */
  lemma {:induction false} GroupSummarises<L>(lines: seq<Line<L>>)
    ensures Summarises(Group(lines), lines)
  {
    if lines != [] {
      var init, last := lines[..|lines| - 1], lines[|lines| - 1];
      GroupSummarises(init);
      assert lines == init + [last];
      SummarisesSnoc(Group(init), init, last);
    }
  }

  /** Inserting one more line keeps the aggregate up to date. */
  lemma SummarisesSnoc<L>(g: seq<Entity<L>>, init: seq<Line<L>>, last: Line<L>)
    requires Summarises(g, init)
    ensures Summarises(Insert(g, last), init + [last])
  {
    SnocKeys(g, init, last);
    SnocTotals(g, init, last);
    SnocFirstNames(g, init, last);
  }

  lemma SnocKeys<L>(g: seq<Entity<L>>, init: seq<Line<L>>, last: Line<L>)
    requires Summarises(g, init)
    ensures forall k :: Find(Insert(g, last), k).Some? <==> HasKey(init + [last], k)
  {
    InsertFind(g, last);
    HasKeySnoc(init, last);
  }

  lemma SnocTotals<L>(g: seq<Entity<L>>, init: seq<Line<L>>, last: Line<L>)
    requires Summarises(g, init)
    ensures var r := Insert(g, last);
            forall k :: Total(init + [last], k) == if Find(r, k).Some? then Find(r, k).value.total else 0
  {
    InsertFind(g, last);
    var lines := init + [last];
    assert lines[..|lines| - 1] == init && lines[|lines| - 1] == last;
  }

  lemma SnocFirstNames<L>(g: seq<Entity<L>>, init: seq<Line<L>>, last: Line<L>)
    requires Summarises(g, init)
    ensures var r := Insert(g, last);
            forall k :: Find(r, k).Some? ==> IsFirstNames(init + [last], k, Find(r, k).value.names)
  {
    InsertFind(g, last);
    var lines, r := init + [last], Insert(g, last);
    forall k | Find(r, k).Some? ensures IsFirstNames(lines, k, Find(r, k).value.names) {
      if Find(g, k).Some? {
        var i :| 0 <= i < |init| && init[i].key == k && init[i].names == Find(g, k).value.names &&
                 forall j :: 0 <= j < i ==> init[j].key != k;
        assert lines[i] == init[i];
      } else {
        assert k == last.key;
        assert forall j :: 0 <= j < |init| ==> init[j].key != k && lines[j] == init[j];
        assert lines[|lines| - 1] == last;
      }
    }
  }

  lemma HasKeySnoc<L>(init: seq<Line<L>>, last: Line<L>)
    ensures forall k :: HasKey(init + [last], k) <==> HasKey(init, k) || last.key == k
  {
    var lines := init + [last];
    forall k ensures HasKey(lines, k) <==> HasKey(init, k) || last.key == k {
      if HasKey(init, k) {
        var i :| 0 <= i < |init| && init[i].key == k;
        assert lines[i].key == k;
      }
      if last.key == k {
        assert lines[|init|].key == k;
      }
      if HasKey(lines, k) && last.key != k {
        var i :| 0 <= i < |lines| && lines[i].key == k;
        assert init[i].key == k;
      }
    }
  }

  /** Aggregation conserves the amount column. */
  lemma {:induction false} GroupConserves<L>(lines: seq<Line<L>>)
    ensures Sum(Group(lines), EntityTotal) == Sum(lines, LineAmount)
  {
    if lines != [] {
      var init, last := lines[..|lines| - 1], lines[|lines| - 1];
      GroupConserves(init);
      InsertConserves(Group(init), last);
      SumLast(lines, LineAmount);
    }
  }

  lemma {:induction false} InsertConserves<L>(es: seq<Entity<L>>, l: Line<L>)
    requires Ascending(es)
    ensures Sum(Insert(es, l), EntityTotal) == Sum(es, EntityTotal) + l.amount
  {
    if es != [] && es[0].key != l.key && !Less(l.key, es[0].key) {
      assert Ascending(es[1..]);
      InsertConserves(es[1..], l);
    }
  }

  /** Reading each entity of es back as one line. */
  function AsLines<L>(es: seq<Entity<L>>): (r: seq<Line<L>>)
    ensures |r| == |es|
  {
    if es == [] then []
    else
      var e := es[|es| - 1];
      AsLines(es[..|es| - 1]) + [Line(e.key, e.names, e.total)]
  }

  /** Aggregation takes the lines one at a time, first to last. */
  lemma GroupSnoc<L>(init: seq<Line<L>>, last: Line<L>)
    ensures Group(init + [last]) == Insert(Group(init), last)
  {
    assert (init + [last])[..|init|] == init;
  }

  /** A line whose key is above every key of es becomes a new last group. */
  lemma {:induction false} InsertAbove<L>(es: seq<Entity<L>>, l: Line<L>)
    requires Ascending(es)
    requires es == [] || Less(es[|es| - 1].key, l.key)
    ensures Insert(es, l) == es + [Entity(l.key, l.names, l.amount)]
  {
    if es != [] {
      if |es| > 1 {
        LessTransitive(es[0].key, es[|es| - 1].key, l.key);
      }
      LessIrreflexive(l.key);
      LessAsymmetric(es[0].key, l.key);
      assert Ascending(es[1..]);
      var e := Entity(l.key, l.names, l.amount);
      calc {
        Insert(es, l);
        [es[0]] + Insert(es[1..], l);
        { InsertAbove(es[1..], l); }
        [es[0]] + (es[1..] + [e]);
        { assert es == [es[0]] + es[1..]; }
        es + [e];
      }
    }
  }

  /** Aggregating a sequence that already has one entity per key, in
      ascending key order, gives that sequence back. */
  lemma {:induction false} GroupOfAscending<L>(es: seq<Entity<L>>)
    requires Ascending(es)
    ensures Group(AsLines(es)) == es
  {
    if es != [] {
      var init, e := es[..|es| - 1], es[|es| - 1];
      var last := Line(e.key, e.names, e.total);
      assert Ascending(init);
      if |es| > 1 {
        assert init[|init| - 1] == es[|es| - 2];
        assert Less(es[|es| - 2].key, e.key);
      }
      assert AsLines(es) == AsLines(init) + [last];
      assert init + [e] == es;
      calc {
        Group(AsLines(es));
        Group(AsLines(init) + [last]);
        { GroupSnoc(AsLines(init), last); }
        Insert(Group(AsLines(init)), last);
        { GroupOfAscending(init); }
        Insert(init, last);
        { InsertAbove(init, last); }
        es;
      }
    }
  }

  /** Aggregating an aggregate changes nothing. */
  lemma GroupIdempotent<L>(lines: seq<Line<L>>)
    ensures Group(AsLines(Group(lines))) == Group(lines)
  {
    GroupOfAscending(Group(lines));
  }

  /** The aggregate entity by entity: each carries its key's total and
      first-seen names, and every key of the input has an entity. */
  lemma GroupEntities<L>(lines: seq<Line<L>>)
    ensures forall j :: 0 <= j < |Group(lines)| ==>
              var e := Group(lines)[j];
              e.total == Total(lines, e.key) && IsFirstNames(lines, e.key, e.names)
    ensures forall i :: 0 <= i < |lines| ==>
              exists j :: 0 <= j < |Group(lines)| && Group(lines)[j].key == lines[i].key
  {
    var r := Group(lines);
    GroupSummarises(lines);
    forall j | 0 <= j < |r| ensures r[j].total == Total(lines, r[j].key) && IsFirstNames(lines, r[j].key, r[j].names) {
      FindAscending(r, j);
    }
    forall i | 0 <= i < |lines| ensures exists j :: 0 <= j < |r| && r[j].key == lines[i].key {
      assert HasKey(lines, lines[i].key);
      var e := Find(r, lines[i].key).value;
      var j :| 0 <= j < |r| && r[j] == e;
    }
  }
}
