/** Prisma's cursor pagination as the product listing uses it: `take`, `cursor: { id }`
    and `skip: 1` over rows already in the listing's order. */
module Paging {
  import opened Common
  import opened Json
  import opened Table


  /** The position of the row with id `c`, `|tbl|` when there is none. */
  function CursorIndex(tbl: seq<Row>, c: string): (i: nat)
    ensures i <= |tbl|
    ensures i < |tbl| ==> FieldOf(tbl[i], "id") == Str(c)
    ensures forall j | 0 <= j < i :: FieldOf(tbl[j], "id") != Str(c)
  {
    if tbl == [] then 0
    else if FieldOf(tbl[0], "id") == Str(c) then 0
    else 1 + CursorIndex(tbl[1..], c)
  }

  /** The first `n` rows, or all of them when there are fewer (`take: n`). */
  function Front(rows: seq<Row>, n: nat): (r: seq<Row>)
    ensures |r| == if n < |rows| then n else |rows|
    ensures r <= rows
  {
    rows[..if n < |rows| then n else |rows|]
  }

  /** The matching rows the query reads from: all of them without a cursor; with one,
      those from the cursor row on, less the first (`skip: 1`). An unknown cursor gives
      nothing. */
  function AfterCursor(tbl: seq<Row>, w: Value, cursor: Option<string>): seq<Row> {
    if cursor.None? then Filter(tbl, w)
    else
      var from := Filter(tbl[CursorIndex(tbl, cursor.value)..], w);
      if from == [] then [] else from[1..]
  }

  /** `findMany({ where: w, take, cursor: { id: c }, skip: 1 })` over rows in the listing's
      order: at most `take` of the rows after the cursor. */
  function Page(tbl: seq<Row>, w: Value, take: nat, cursor: Option<string>): (items: seq<Row>)
    ensures |items| <= take
    ensures forall r | r in items :: r in tbl && Eval(w, r)
  {
    var matched := AfterCursor(tbl, w, cursor);
    assert forall r | r in matched :: r in tbl && Eval(w, r) by {
      if cursor.Some? {
        var i := CursorIndex(tbl, cursor.value);
        FilterMembers(tbl[i..], w);
        assert forall r | r in tbl[i..] :: r in tbl;
      } else {
        FilterMembers(tbl, w);
      }
    }
    matched[..if take < |matched| then take else |matched|]
  }


  /** Ids are the primary key: no two rows share one. */
  predicate DistinctIds(tbl: seq<Row>) {
    forall i, j | 0 <= i < j < |tbl| :: FieldOf(tbl[i], "id") != FieldOf(tbl[j], "id")
  }

  lemma {:induction false} FilterAppend(a: seq<Row>, b: seq<Row>, w: Value)
    ensures Filter(a + b, w) == Filter(a, w) + Filter(b, w)
  {
    if a == [] {
      assert a + b == b;
    } else {
      assert (a + b)[1..] == a[1..] + b;
      FilterAppend(a[1..], b, w);
    }
  }

  /** Filtering a non-empty prefix looks at its first row, then at the rest. */
  lemma FilterPrefixStep(tbl: seq<Row>, w: Value, j: nat)
    requires j < |tbl|
    ensures Filter(tbl[..j + 1], w)
      == (if Eval(w, tbl[0]) then [tbl[0]] else []) + Filter(tbl[1..][..j], w)
  {
    var pre := tbl[..j + 1];
    assert pre[0] == tbl[0];
    assert pre[1..] == tbl[1..][..j];
  }

  /** Filtering a non-empty table looks at its first row, then at the rest. */
  lemma FilterHead(tbl: seq<Row>, w: Value)
    requires tbl != []
    ensures Filter(tbl, w) == (if Eval(w, tbl[0]) then [tbl[0]] else []) + Filter(tbl[1..], w)
  {
  }

  /** The `k`-th matching row sits at some position `i` of the table, after exactly `k`
      matching rows. */
  lemma {:induction false} FilterPosition(tbl: seq<Row>, w: Value, k: nat) returns (i: nat)
    requires k < |Filter(tbl, w)|
    ensures i < |tbl| && |Filter(tbl[..i], w)| == k && tbl[i] == Filter(tbl, w)[k]
  {
    if Eval(w, tbl[0]) {
      if k == 0 {
        assert tbl[..0] == [];
        return 0;
      }
      FilterHead(tbl, w);
      var j := FilterPosition(tbl[1..], w, k - 1);
      i := j + 1;
      FilterPrefixStep(tbl, w, j);
    } else {
      FilterHead(tbl, w);
      var j := FilterPosition(tbl[1..], w, k);
      i := j + 1;
      FilterPrefixStep(tbl, w, j);
    }
  }

  /** With distinct ids, the cursor lookup finds the one row carrying that id. */
  lemma CursorFinds(tbl: seq<Row>, i: nat, c: string)
    requires DistinctIds(tbl) && i < |tbl| && FieldOf(tbl[i], "id") == Str(c)
    ensures CursorIndex(tbl, c) == i
  {
  }

  /** Filtering from a matching row at position `i` gives that row, then the matching rows
      after the first `k + 1`, where `k` matching rows precede it. */
  lemma FilterFrom(tbl: seq<Row>, w: Value, i: nat, k: nat)
    requires i < |tbl| && Eval(w, tbl[i]) && |Filter(tbl[..i], w)| == k
    ensures k < |Filter(tbl, w)| && Filter(tbl[i..], w) != [] && Filter(tbl[i..], w)[1..] == Filter(tbl, w)[k + 1..]
  {
    assert tbl == tbl[..i] + tbl[i..];
    FilterAppend(tbl[..i], tbl[i..], w);
    var suffix := tbl[i..];
    assert suffix[1..] == tbl[i + 1..];
    FilterHead(suffix, w);
  }

  /** Continuing from the `k`-th matching row reads the matching rows right after it: no
      row is skipped and none is repeated. */
  lemma RowsAfterCursor(tbl: seq<Row>, w: Value, k: nat, c: string)
    requires DistinctIds(tbl)
    requires k < |Filter(tbl, w)| && FieldOf(Filter(tbl, w)[k], "id") == Str(c)
    ensures AfterCursor(tbl, w, Some(c)) == Filter(tbl, w)[k + 1..]
  {
    var i := FilterPosition(tbl, w, k);
    FilterMembers(tbl, w);
    CursorFinds(tbl, i, c);
    FilterFrom(tbl, w, i, k);
  }

  /** The page after the `k`-th matching row is the next `take` matching rows. */
  lemma PageAfterCursor(tbl: seq<Row>, w: Value, take: nat, k: nat, c: string)
    requires DistinctIds(tbl)
    requires k < |Filter(tbl, w)| && FieldOf(Filter(tbl, w)[k], "id") == Str(c)
    ensures Page(tbl, w, take, Some(c)) == Front(Filter(tbl, w)[k + 1..], take)
  {
    RowsAfterCursor(tbl, w, k, c);
  }

  /** Without a cursor the page is the first `take` matching rows. */
  lemma FirstPage(tbl: seq<Row>, w: Value, take: nat)
    ensures var all := Filter(tbl, w);
      Page(tbl, w, take, None) == Front(all, take)
  {
  }

  /** Two consecutive fronts make one. */
  lemma FrontsJoin(all: seq<Row>, take: nat)
    requires take <= |all|
    ensures Front(all, take) + Front(all[take..], take) == Front(all, 2 * take)
  {
    var m := if take < |all| - take then take else |all| - take;
    assert all[..take] + all[take..][..m] == all[..take + m];
  }

  /** The rows after the last row of a full first page. */
  lemma RowsAfterFirstPage(tbl: seq<Row>, w: Value, take: nat, c: string)
    requires DistinctIds(tbl) && 1 <= take <= |Filter(tbl, w)|
    requires FieldOf(Filter(tbl, w)[take - 1], "id") == Str(c)
    ensures AfterCursor(tbl, w, Some(c)) == Filter(tbl, w)[take..]
  {
    var k: nat := take - 1;
    assert FieldOf(Filter(tbl, w)[k], "id") == Str(c);
    RowsAfterCursor(tbl, w, k, c);
    assert k + 1 == take;
  }

  /** When the first page is full, it and the page its last row points to are, together,
      the start of the listing. */
  lemma PagesTile(tbl: seq<Row>, w: Value, take: nat, c: string)
    requires DistinctIds(tbl) && 1 <= take <= |Filter(tbl, w)|
    requires FieldOf(Filter(tbl, w)[take - 1], "id") == Str(c)
    ensures Page(tbl, w, take, None) == Filter(tbl, w)[..take]
    ensures Page(tbl, w, take, None) + Page(tbl, w, take, Some(c)) == Front(Filter(tbl, w), 2 * take)
  {
    RowsAfterFirstPage(tbl, w, take, c);
    FirstPage(tbl, w, take);
    FrontsJoin(Filter(tbl, w), take);
  }

}
