/**
 * Merging the accumulated pages: concatenate them in fetch order, drop every
 * row whose timestamp was already seen, and sort the rest by timestamp.
 */
module Normalizer {
  import opened MoexTypes

  /** pd.concat of the pages, in the order they were fetched. */
  function Concat(pages: seq<seq<Row>>): seq<Row> {
    if pages == [] then [] else pages[0] + Concat(pages[1..])
  }

  function Times(rows: seq<Row>): set<int> {
    set r | r in rows :: r.time
  }

  predicate DistinctTimes(rows: seq<Row>) {
    forall i, j :: 0 <= i < j < |rows| ==> rows[i].time != rows[j].time
  }

  predicate Ascending(rows: seq<Row>) {
    forall i, j :: 0 <= i < j < |rows| ==> rows[i].time <= rows[j].time
  }

  predicate StrictlyIncreasing(rows: seq<Row>) {
    forall i, j :: 0 <= i < j < |rows| ==> rows[i].time < rows[j].time
  }

  /**
   * drop_duplicates(subset="TRADEDATE"): the rows, in order, without those
   * whose timestamp occurs earlier. Stated row by row from the front.
   */
  function DropDuplicates(rows: seq<Row>): seq<Row> {
    if rows == [] then []
    else
      var kept := DropDuplicates(rows[..|rows| - 1]);
      var last := rows[|rows| - 1];
      if last.time in Times(kept) then kept else kept + [last]
  }

  /** The earliest row with timestamp `t`: the reference for which duplicate survives. */
  function FirstWith(rows: seq<Row>, t: int): (r: Row)
    requires t in Times(rows)
    ensures r in rows && r.time == t
  {
    if rows[0].time == t then rows[0]
    else
      assert t in Times(rows[1..]) by {
        var x :| x in rows && x.time == t;
        assert x in rows[1..] by { assert x != rows[0]; }
      }
      FirstWith(rows[1..], t)
  }

  lemma {:induction false} FirstWithAppend(rows: seq<Row>, x: Row, t: int)
    requires t in Times(rows + [x])
    ensures t in Times(rows) ==> FirstWith(rows + [x], t) == FirstWith(rows, t)
    ensures t !in Times(rows) ==> x.time == t && FirstWith(rows + [x], t) == x
  {
    if rows == [] {
      assert rows + [x] == [x];
    } else if rows[0].time == t {
    } else {
      assert (rows + [x])[1..] == rows[1..] + [x];
      if t in Times(rows) {
        var y :| y in rows && y.time == t;
        assert y in rows[1..] by { assert y != rows[0]; }
        FirstWithAppend(rows[1..], x, t);
      } else {
        forall y | y in rows[1..] ensures y.time != t { assert y in rows; }
        FirstWithAppend(rows[1..], x, t);
      }
    }
  }

  lemma TimesAppend(rows: seq<Row>, x: Row)
    ensures Times(rows + [x]) == Times(rows) + {x.time}
  {
    forall y | y in rows + [x] ensures y in rows || y == x { }
  }

  /**
   * Dropping duplicates keeps every timestamp of the input exactly once, and
   * the row kept for a timestamp is its first occurrence.
   */
  lemma {:induction false} DropDuplicatesKeepsFirst(rows: seq<Row>)
    ensures Times(DropDuplicates(rows)) == Times(rows)
    ensures DistinctTimes(DropDuplicates(rows))
    ensures forall r :: r in DropDuplicates(rows) ==>
              r.time in Times(rows) && r == FirstWith(rows, r.time)
  {
    if rows != [] {
      var init, last := rows[..|rows| - 1], rows[|rows| - 1];
      assert rows == init + [last];
      DropDuplicatesKeepsFirst(init);
      var kept := DropDuplicates(init);
      TimesAppend(init, last);
      if last.time in Times(kept) {
        forall r | r in kept ensures r == FirstWith(rows, r.time) {
          FirstWithAppend(init, last, r.time);
        }
      } else {
        TimesAppend(kept, last);
        forall r | r in kept + [last] ensures r.time in Times(rows) && r == FirstWith(rows, r.time) {
          FirstWithAppend(init, last, r.time);
        }
        forall i, j | 0 <= i < j < |kept + [last]|
          ensures (kept + [last])[i].time != (kept + [last])[j].time
        {
          if j == |kept| {
            assert (kept + [last])[i] in kept;
          }
        }
      }
    }
  }

  /** The drop_duplicates step: one pass, remembering the timestamps seen so far. */
  method DropDuplicateTimes(rows: seq<Row>) returns (kept: seq<Row>)
    ensures kept == DropDuplicates(rows)
  {
    kept := [];
    var seen: set<int> := {};
    for i := 0 to |rows|
      invariant kept == DropDuplicates(rows[..i])
      invariant seen == Times(kept)
    {
      assert rows[..i + 1][..i] == rows[..i];
      if rows[i].time !in seen {
        TimesAppend(kept, rows[i]);
        kept := kept + [rows[i]];
        seen := seen + {rows[i].time};
      }
    }
    assert rows[..|rows|] == rows;
  }

  /** Puts `r` into a sorted sequence after every row with a timestamp not above its own. */
  function Insert(sorted: seq<Row>, r: Row): (s: seq<Row>)
    requires Ascending(sorted)
    ensures Ascending(s)
    ensures multiset(s) == multiset(sorted) + multiset{r}
    ensures forall y :: y in s ==> y in sorted || y == r
  {
    if sorted == [] || r.time < sorted[0].time then
      AscendingHead(sorted);
      PrependAscending(r, sorted);
      [r] + sorted
    else
      var rest := Insert(sorted[1..], r);
      AscendingHead(sorted);
      PrependAscending(sorted[0], rest);
      assert sorted == [sorted[0]] + sorted[1..];
      [sorted[0]] + rest
  }

  /** The first row of a sorted sequence has the least timestamp. */
  lemma AscendingHead(sorted: seq<Row>)
    requires Ascending(sorted)
    ensures Ascending(sorted[if sorted == [] then 0 else 1..])
    ensures sorted != [] ==> forall y :: y in sorted ==> sorted[0].time <= y.time
  {
  }

  lemma PrependAscending(x: Row, rows: seq<Row>)
    requires Ascending(rows)
    requires forall y :: y in rows ==> x.time <= y.time
    ensures Ascending([x] + rows)
  {
    forall i, j | 0 <= i < j < |[x] + rows| ensures ([x] + rows)[i].time <= ([x] + rows)[j].time {
      if i == 0 {
        assert ([x] + rows)[j] in rows;
      }
    }
  }

  /** sort_values("TRADEDATE"): a rearrangement of the rows in ascending timestamp order. */
  method SortByTime(rows: seq<Row>) returns (sorted: seq<Row>)
    ensures Ascending(sorted)
    ensures multiset(sorted) == multiset(rows)
  {
    sorted := [];
    for i := 0 to |rows|
      invariant Ascending(sorted)
      invariant multiset(sorted) == multiset(rows[..i])
    {
      assert rows[..i + 1] == rows[..i] + [rows[i]];
      sorted := Insert(sorted, rows[i]);
    }
    assert rows[..|rows|] == rows;
  }

  /** Sorted rows whose timestamps are distinct are strictly increasing. */
  lemma AscendingDistinct(rows: seq<Row>)
    requires Ascending(rows) && DistinctTimes(rows)
    ensures StrictlyIncreasing(rows)
  {
  }

  /** Rows with distinct timestamps have as many timestamps as rows. */
  lemma {:induction false} DistinctTimesCount(rows: seq<Row>)
    requires DistinctTimes(rows)
    ensures |Times(rows)| == |rows|
  {
    if rows != [] {
      var init, last := rows[..|rows| - 1], rows[|rows| - 1];
      assert rows == init + [last];
      DistinctTimesCount(init);
      TimesAppend(init, last);
      forall y | y in init ensures y.time != last.time {
        var i :| 0 <= i < |init| && init[i] == y;
        assert rows[i] == y;
      }
    }
  }

  /**
   * Two strictly increasing sequences of the same rows are equal: the merged
   * series does not depend on how the sort is carried out.
   */
  lemma {:induction false} StrictlySortedUnique(a: seq<Row>, b: seq<Row>)
    requires StrictlyIncreasing(a) && StrictlyIncreasing(b)
    requires forall x :: x in a <==> x in b
    ensures a == b
  {
    assert a != [] ==> a[0] in b;
    assert b != [] ==> b[0] in a;
    if a != [] && b != [] {
      SameHead(a, b);
      TailMembers(a);
      TailMembers(b);
      StrictlySortedUnique(a[1..], b[1..]);
      assert a == [a[0]] + a[1..] && b == [b[0]] + b[1..];
    }
  }

  /** The least row of two strictly increasing sequences of the same rows is the same. */
  lemma SameHead(a: seq<Row>, b: seq<Row>)
    requires StrictlyIncreasing(a) && StrictlyIncreasing(b)
    requires (forall x :: x in a <==> x in b) && a != [] && b != []
    ensures a[0] == b[0]
  {
    assert a[0] in b && b[0] in a;
    var i :| 0 <= i < |b| && b[i] == a[0];
    var j :| 0 <= j < |a| && a[j] == b[0];
    assert b[0].time <= b[i].time && a[0].time <= a[j].time;
  }

  lemma TailMembers(a: seq<Row>)
    requires StrictlyIncreasing(a) && a != []
    ensures forall x :: x in a[1..] <==> x in a && x != a[0]
  {
    forall x ensures x in a[1..] <==> x in a && x != a[0] {
      if x in a[1..] {
        var k :| 1 <= k < |a| && a[k] == x;
        assert a[0].time < a[k].time;
      }
      if x in a && x != a[0] {
        var k :| 0 <= k < |a| && a[k] == x;
        assert a[k] in a[1..];
      }
    }
  }

  /**
   * What the merge promises about its result `rows` for `pages`: strictly
   * increasing timestamps, every timestamp of the pages, and for each one
   * the row first seen in fetch order.
   */
  ghost predicate IsMergeOf(pages: seq<seq<Row>>, rows: seq<Row>) {
    var all := Concat(pages);
    && StrictlyIncreasing(rows)
    && Times(rows) == Times(all)
    && forall x :: x in rows ==> x.time in Times(all) && x == FirstWith(all, x.time)
  }

  /** The merge promise pins the result down completely. */
  lemma MergeIsUnique(pages: seq<seq<Row>>, a: seq<Row>, b: seq<Row>)
    requires IsMergeOf(pages, a) && IsMergeOf(pages, b)
    ensures a == b
  {
    var all := Concat(pages);
    forall x ensures x in a ==> x in b {
      if x in a {
        assert x.time in Times(b);
        var y :| y in b && y.time == x.time;
      }
    }
    forall x ensures x in b ==> x in a {
      if x in b {
        assert x.time in Times(a);
        var y :| y in a && y.time == x.time;
      }
    }
    StrictlySortedUnique(a, b);
  }

  /**
   * The merge step of a history request: no page at all is an error;
   * otherwise the result is strictly increasing in time, holds every
   * timestamp of the pages exactly once, and for each one the row first
   * seen in fetch order.
   */
  method Normalize(pages: seq<seq<Row>>) returns (r: Result<seq<Row>>)
    ensures pages == [] <==> r.Failure?
    ensures r.Failure? ==> r.error == NoData
    ensures r.Success? ==>
      var rows := Concat(pages);
      && StrictlyIncreasing(r.value)
      && Times(r.value) == Times(rows)
      && |r.value| == |Times(rows)|
      && (forall x :: x in r.value ==> x.time in Times(rows) && x == FirstWith(rows, x.time))
      && multiset(r.value) == multiset(DropDuplicates(rows))
    ensures r.Success? ==> IsMergeOf(pages, r.value)
  {
    if pages == [] {
      return Failure(NoData);
    }
    var df := Concat(pages);
    ghost var all := df;
    df := DropDuplicateTimes(df);
    DropDuplicatesKeepsFirst(all);
    ghost var deduped := df;
    df := SortByTime(df);
    assert forall x :: x in df <==> x in deduped by {
      forall x ensures x in df <==> x in deduped {
        assert x in df <==> x in multiset(df);
      }
    }
    assert Times(df) == Times(deduped);
    assert DistinctTimes(df) by {
      forall i, j | 0 <= i < j < |df| ensures df[i].time != df[j].time {
        if df[i].time == df[j].time {
          assert df[i] in deduped && df[j] in deduped;
          assert df[i] == FirstWith(all, df[i].time) == df[j];
          var m := multiset(df);
          assert multiset(deduped) == m;
          var p :| 0 <= p < |deduped| && deduped[p] == df[i];
          DistinctCount(deduped, p);
          SeqCount(df, i, j);
        }
      }
    }
    AscendingDistinct(df);
    DistinctTimesCount(df);
    return Success(df);
  }

  /** In rows with distinct timestamps, a row occurs once. */
  lemma {:induction false} DistinctCount(rows: seq<Row>, p: nat)
    requires DistinctTimes(rows) && p < |rows|
    ensures multiset(rows)[rows[p]] == 1
  {
    if |rows| > 1 {
      var init, last := rows[..|rows| - 1], rows[|rows| - 1];
      assert rows == init + [last];
      if p == |rows| - 1 {
        forall q | 0 <= q < |init| ensures init[q] != last {
          assert rows[q].time != rows[|rows| - 1].time;
        }
      } else {
        DistinctCount(init, p);
        assert rows[p] != last by { assert rows[p].time != rows[|rows| - 1].time; }
      }
    }
  }

  /** A row found at two positions occurs at least twice. */
  lemma SeqCount(rows: seq<Row>, i: nat, j: nat)
    requires i < j < |rows| && rows[i] == rows[j]
    ensures multiset(rows)[rows[i]] >= 2
  {
    assert rows == rows[..i] + [rows[i]] + rows[i + 1..j] + [rows[j]] + rows[j + 1..];
  }
}
