/** The order of the optimize scoreboard and the buckets of the full report (tokenjam/cli/cmd_optimize.py). */
module Scoreboard {
  import opened Prelude

  // ---------------------------------------------------------------------
  // Which analyzers run
  // ---------------------------------------------------------------------

  const PLACEMENT := "placement"
  const DOWNSIZE := "downsize"

  function Analyzer(name: string): string { if name == PLACEMENT then DOWNSIZE else name }

  ghost predicate Asked(requested: seq<string>, name: string) {
    exists r :: r in requested && Analyzer(r) == name
  }

  predicate Distinct(names: seq<string>) {
    forall i, j :: 0 <= i < j < |names| ==> names[i] != names[j]
  }

  /** `_resolve_analyzer_names` for a list of names: each analyzer asked for, once. */
  method ResolveAnalyzerNames(requested: seq<string>) returns (names: seq<string>)
    ensures Distinct(names)
    ensures forall n :: n in names <==> Asked(requested, n)
    ensures names == FirstOfEach(requested)
  {
    names := [];
    for i := 0 to |requested|
      invariant names == FirstOfEach(requested[..i])
    {
      assert requested[..i + 1][..i] == requested[..i];
      if Analyzer(requested[i]) !in names {
        names := names + [Analyzer(requested[i])];
      }
    }
    assert requested[..|requested|] == requested;
    EachOnce(requested);
  }

  /** In the order in which each is asked for first. */
  function FirstOfEach(requested: seq<string>): seq<string> {
    if requested == [] then []
    else
      var front := FirstOfEach(requested[..|requested| - 1]);
      var last := Analyzer(requested[|requested| - 1]);
      if last in front then front else front + [last]
  }

  lemma {:induction false} EachOnce(requested: seq<string>)
    ensures Distinct(FirstOfEach(requested))
    ensures forall n :: n in FirstOfEach(requested) <==> Asked(requested, n)
  {
    if requested != [] {
      var front, last := requested[..|requested| - 1], requested[|requested| - 1];
      EachOnce(front);
      assert requested == front + [last];
      forall n ensures Asked(requested, n) <==> Asked(front, n) || n == Analyzer(last) {
        if Asked(front, n) {
          var r :| r in front && Analyzer(r) == n;
          assert r in requested;
        }
        assert last in requested;
      }
    }
  }

  // ---------------------------------------------------------------------
  // Rows
  // ---------------------------------------------------------------------

  datatype Row = Row(value: Option<real>, rank: nat, name: string)

  /** What an analyzer found; no summary means no row. */
  datatype Finding = Finding(name: string, summary: bool, usd: Option<real>, tokens: Option<nat>)

  const UNPRICED := {"stream-usage", "shipped"}

  /** `_scoreboard_sort_value`. */
  function SortValue(f: Finding, local: bool): Option<real> {
    if f.name in UNPRICED then None
    else if local then (if f.tokens.Some? then Some(f.tokens.value as real) else None)
    else f.usd
  }

  function RowsOf(ranked: seq<Finding>, local: bool): seq<Row> {
    if ranked == [] then []
    else
      var front, last := ranked[..|ranked| - 1], ranked[|ranked| - 1];
      RowsOf(front, local) + if last.summary then [Row(SortValue(last, local), |front|, last.name)] else []
  }

  /** The sort key: unpriced last, then falling value, then rank. */
  predicate Before(a: Row, b: Row) {
    if a.value.None? || b.value.None? then
      if a.value.None? && b.value.None? then a.rank < b.rank else b.value.None?
    else a.value.value > b.value.value || (a.value.value == b.value.value && a.rank < b.rank)
  }

  predicate Ordered(rows: seq<Row>) {
    forall i, j :: 0 <= i < j < |rows| ==> Before(rows[i], rows[j])
  }

  predicate DistinctRanks(rows: seq<Row>) {
    forall i, j :: 0 <= i < j < |rows| ==> rows[i].rank != rows[j].rank
  }

  function Insert(r: Row, rows: seq<Row>): seq<Row> {
    if rows == [] || Before(r, rows[0]) then [r] + rows else [rows[0]] + Insert(r, rows[1..])
  }

  lemma {:induction false} InsertAdds(r: Row, rows: seq<Row>)
    ensures multiset(Insert(r, rows)) == multiset(rows) + multiset{r}
  {
    hide Before;
    if rows != [] {
      assert rows == [rows[0]] + rows[1..];
      InsertAdds(r, rows[1..]);
    }
  }

  lemma {:induction false} InsertKeeps(r: Row, rows: seq<Row>)
    requires Ordered(rows) && forall s :: s in rows ==> s.rank != r.rank
    ensures Ordered(Insert(r, rows))
  {
    if rows == [] {
    } else if Before(r, rows[0]) {
      forall s | s in rows ensures Before(r, s) {
        if s != rows[0] {
          HeadBefore(rows, s);
          Chain(r, rows[0], s);
        }
      }
    } else {
      var rest := Insert(r, rows[1..]);
      InsertKeeps(r, rows[1..]);
      InsertAdds(r, rows[1..]);
      forall s | s in rest ensures Before(rows[0], s) {
        assert s in multiset(rest);
        assert s == r || s in rows[1..];
      }
    }
  }

  lemma {:induction false} Chain(a: Row, b: Row, c: Row)
    requires Before(a, b) && Before(b, c)
    ensures Before(a, c)
  {}

  lemma {:induction false} HeadBefore(rows: seq<Row>, r: Row)
    requires Ordered(rows) && r in rows
    ensures rows[0] == r || Before(rows[0], r)
  {}

  /** A row stands for the finding at its rank. */
  predicate RowFor(ranked: seq<Finding>, local: bool, r: Row) {
    r.rank < |ranked| && ranked[r.rank].summary
    && r == Row(SortValue(ranked[r.rank], local), r.rank, ranked[r.rank].name)
  }

  /** The rows are those of the findings that have a summary, each once. */
  lemma {:induction false} RowsAreFindings(ranked: seq<Finding>, local: bool, r: Row)
    ensures r in RowsOf(ranked, local) <==> RowFor(ranked, local, r)
  {
    hide SortValue;
    if ranked != [] {
      var front := ranked[..|ranked| - 1];
      RowsAreFindings(front, local, r);
      assert r.rank < |front| ==> RowFor(front, local, r) == RowFor(ranked, local, r);
    }
  }

  lemma {:induction false} RanksDiffer(ranked: seq<Finding>, local: bool)
    ensures DistinctRanks(RowsOf(ranked, local))
  {
    hide SortValue;
    if ranked != [] {
      var front := ranked[..|ranked| - 1];
      var rows := RowsOf(front, local);
      RanksDiffer(front, local);
      forall i | 0 <= i < |rows| ensures rows[i].rank < |front| {
        assert rows[i] in rows;
        RowsAreFindings(front, local, rows[i]);
      }
    }
  }

  function SortRows(rows: seq<Row>): seq<Row> {
    if rows == [] then [] else Insert(rows[0], SortRows(rows[1..]))
  }

  lemma {:induction false} SortKeeps(rows: seq<Row>)
    requires DistinctRanks(rows)
    ensures Ordered(SortRows(rows)) && multiset(SortRows(rows)) == multiset(rows)
  {
    if rows != [] {
      var rest := SortRows(rows[1..]);
      SortKeeps(rows[1..]);
      assert rows == [rows[0]] + rows[1..];
      forall s | s in rest ensures s.rank != rows[0].rank {
        assert s in multiset(rest) && s in multiset(rows[1..]);
        var k :| 0 <= k < |rows[1..]| && rows[1..][k] == s;
        assert rows[k + 1] == s;
      }
      InsertKeeps(rows[0], rest);
      InsertAdds(rows[0], rest);
    }
  }

  /** The rows of the table: collected in rank order, then sorted by the key. */
  method ScoreboardRows(ranked: seq<Finding>, local: bool) returns (rows: seq<Row>)
    ensures multiset(rows) == multiset(RowsOf(ranked, local)) && Ordered(rows)
  {
    hide Insert, Ordered, Before;
    var ordered: seq<Row> := [];
    for rank := 0 to |ranked|
      invariant ordered == RowsOf(ranked[..rank], local)
    {
      var f := ranked[rank];
      assert ranked[..rank + 1][..rank] == ranked[..rank];
      if f.summary {
        ordered := ordered + [Row(SortValue(f, local), rank, f.name)];
      }
    }
    assert ranked[..|ranked|] == ranked;
    RanksDiffer(ranked, local);
    SortKeeps(ordered);
    rows := SortRows(ordered);
  }

  /** The order leaves nothing open: two sorted tables of the same rows are the same. */
  lemma {:induction false} OneOrder(a: seq<Row>, b: seq<Row>)
    requires Ordered(a) && Ordered(b) && multiset(a) == multiset(b)
    ensures a == b
  {
    assert |a| == |multiset(a)| && |b| == |multiset(b)|;
    if a != [] {
      assert a[0] in multiset(b) && b[0] in multiset(a);
      SameHead(a, b);
      assert Ordered(a[1..]) && Ordered(b[1..]);
      hide Ordered;
      SameRest(a, b);
      OneOrder(a[1..], b[1..]);
      assert a == [a[0]] + a[1..] && b == [b[0]] + b[1..];
    }
  }

  lemma {:induction false} SameRest(a: seq<Row>, b: seq<Row>)
    requires a != [] && b != [] && a[0] == b[0] && multiset(a) == multiset(b)
    ensures multiset(a[1..]) == multiset(b[1..])
  {
    assert a == [a[0]] + a[1..] && b == [b[0]] + b[1..];
    assert multiset(a[1..]) == multiset(a) - multiset{a[0]};
    assert multiset(b[1..]) == multiset(b) - multiset{b[0]};
  }

  lemma {:induction false} SameHead(a: seq<Row>, b: seq<Row>)
    requires Ordered(a) && Ordered(b) && a != [] && b != [] && a[0] in b && b[0] in a
    ensures a[0] == b[0]
  {
    HeadBefore(a, b[0]);
    HeadBefore(b, a[0]);
  }

  /** The first row is the largest single figure, larger ones stand above smaller ones and unpriced rows come last. */
  lemma {:induction false} FirstIsLargest(rows: seq<Row>, i: nat, j: nat)
    requires Ordered(rows) && i < |rows| && j < |rows|
    ensures rows[i].value.Some? ==> rows[0].value.Some? && rows[i].value.value <= rows[0].value.value
    ensures rows[i].value.None? && rows[j].value.Some? ==> j < i
    ensures rows[i].value.Some? && rows[j].value.Some? && rows[i].value.value > rows[j].value.value ==> i < j
    ensures rows[i].value.Some? && rows[i].value == rows[j].value ==> (i < j <==> rows[i].rank < rows[j].rank)
    ensures rows[i].value.None? && rows[j].value.None? ==> (i < j <==> rows[i].rank < rows[j].rank)
  {
    if i > 0 {
      assert Before(rows[0], rows[i]);
    }
    if i < j {
      assert Before(rows[i], rows[j]);
    }
    if j < i {
      assert Before(rows[j], rows[i]);
    }
  }

  // ---------------------------------------------------------------------
  // The three buckets
  // ---------------------------------------------------------------------

  datatype Bucket = Major | Unranked | Minor

  datatype Item = Item(name: string, share: Option<real>)

  function BucketOf(it: Item, expand: bool, threshold: real): Bucket {
    if it.share.None? then Unranked
    else if expand || it.share.value >= threshold then Major
    else Minor
  }

  /** The three comprehensions, each keeping the order of `ranked`. */
  function MajorItems(ranked: seq<Item>, expand: bool, threshold: real): seq<Item> {
    if ranked == [] then []
    else (if ranked[0].share.Some? && (expand || ranked[0].share.value >= threshold) then [ranked[0]] else [])
         + MajorItems(ranked[1..], expand, threshold)
  }

  function UnrankedItems(ranked: seq<Item>): seq<Item> {
    if ranked == [] then []
    else (if ranked[0].share.None? then [ranked[0]] else []) + UnrankedItems(ranked[1..])
  }

  function MinorItems(ranked: seq<Item>, expand: bool, threshold: real): seq<Item> {
    if expand || ranked == [] then []
    else (if ranked[0].share.Some? && ranked[0].share.value < threshold then [ranked[0]] else [])
         + MinorItems(ranked[1..], expand, threshold)
  }

  function Copies(it: Item, items: seq<Item>): nat {
    if items == [] then 0 else (if items[0] == it then 1 else 0) + Copies(it, items[1..])
  }

  lemma {:induction false} CopiesOfMore(it: Item, x: Item, rest: seq<Item>, keep: bool)
    ensures Copies(it, (if keep then [x] else []) + rest) == (if keep && x == it then 1 else 0) + Copies(it, rest)
  {
    if keep {
      assert ([x] + rest)[1..] == rest;
    } else {
      assert [] + rest == rest;
    }
  }

  /**
   Every finding is in exactly one bucket, as often as it is ranked, for every threshold and with or
   without --expand.
   */
  lemma {:induction false} BucketsPartition(ranked: seq<Item>, expand: bool, threshold: real, it: Item)
    ensures Copies(it, MajorItems(ranked, expand, threshold))
         == if BucketOf(it, expand, threshold) == Major then Copies(it, ranked) else 0
    ensures Copies(it, UnrankedItems(ranked))
         == if BucketOf(it, expand, threshold) == Unranked then Copies(it, ranked) else 0
    ensures Copies(it, MinorItems(ranked, expand, threshold))
         == if BucketOf(it, expand, threshold) == Minor then Copies(it, ranked) else 0
  {
    hide Copies;
    if ranked == [] {
      NoCopies(it);
    } else {
      var x, rest := ranked[0], ranked[1..];
      BucketsPartition(rest, expand, threshold, it);
      assert ranked == (if true then [x] else []) + rest;
      CopiesOfMore(it, x, rest, true);
      CopiesOfMore(it, x, MajorItems(rest, expand, threshold), BucketOf(x, expand, threshold) == Major);
      CopiesOfMore(it, x, UnrankedItems(rest), BucketOf(x, expand, threshold) == Unranked);
      if expand {
        NoCopies(it);
      } else {
        CopiesOfMore(it, x, MinorItems(rest, expand, threshold), BucketOf(x, expand, threshold) == Minor);
      }
    }
  }

  lemma {:induction false} NoCopies(it: Item)
    ensures Copies(it, []) == 0
  {}

  // ---------------------------------------------------------------------
  // What the table shows of a finding
  // ---------------------------------------------------------------------

  /**
   The figure a row is sorted by: none for the two analyzers whose figures do not add up, the tokens where
   models are local, the dollars otherwise; and every finding with a summary has its row.
   */
  lemma {:induction false} FigureShown(ranked: seq<Finding>, local: bool, rank: nat)
    requires rank < |ranked|
    ensures var f := ranked[rank];
            && (f.summary <==> exists r :: r in RowsOf(ranked, local) && r.rank == rank)
            && forall r :: r in RowsOf(ranked, local) && r.rank == rank ==>
                 && r.name == f.name
                 && (f.name == "stream-usage" || f.name == "shipped" ==> r.value == None)
                 && (f.name != "stream-usage" && f.name != "shipped" && !local ==> r.value == f.usd)
                 && (f.name != "stream-usage" && f.name != "shipped" && local ==>
                       (r.value == None <==> f.tokens == None)
                       && (f.tokens.Some? ==> r.value == Some(f.tokens.value as real)))
  {
    var f := ranked[rank];
    forall r ensures r in RowsOf(ranked, local) <==> RowFor(ranked, local, r) {
      RowsAreFindings(ranked, local, r);
    }
    if f.summary {
      assert RowFor(ranked, local, Row(SortValue(f, local), rank, f.name));
    }
  }

  /** Each bucket in its own terms; --expand leaves nothing in the last. */
  lemma {:induction false} BucketsExactly(ranked: seq<Item>, expand: bool, threshold: real, it: Item)
    ensures it in MajorItems(ranked, expand, threshold)
       <==> it in ranked && it.share.Some? && (expand || it.share.value >= threshold)
    ensures it in UnrankedItems(ranked) <==> it in ranked && it.share.None?
    ensures it in MinorItems(ranked, expand, threshold)
       <==> it in ranked && it.share.Some? && !expand && it.share.value < threshold
  {
    if ranked != [] {
      BucketsExactly(ranked[1..], expand, threshold, it);
      assert ranked == [ranked[0]] + ranked[1..];
    }
  }

  /** The analyzers run: those asked for, "downsize" also under the name "placement". */
  lemma {:induction false} AskedExactly(requested: seq<string>, name: string)
    ensures name in FirstOfEach(requested)
       <==> (name in requested && name != "placement") || (name == "downsize" && "placement" in requested)
  {
    EachOnce(requested);
    assert "placement" != "downsize" by { assert |"placement"| != |"downsize"|; }
    if "placement" in requested {
      assert Analyzer("placement") == "downsize";
    }
    if name in requested && name != "placement" {
      assert Analyzer(name) == name;
    }
  }
}
