/**
 The row search both `read_csv` functions perform over the country bounding-box
 table: rows are read in order and the first row whose first field is the
 country name decides the answer; fields 1 to 4 are its bounds.
 */
module CountryLookup {

  /** Fields a matching row must have: the country name and four bounds. */
  const RowWidth := 5

  /** Where the row loop stopped, and why. */
  datatype Outcome =
    | Found(at: nat)     // row `at` names the country and has its four bounds
    | ShortRow(at: nat)  // row `at` names the country but has fewer than four bounds
    | EmptyRow(at: nat)  // row `at` is a blank line: `row[0]` raises
    | NotFound           // the loop ran off the end of the table

  /** Rows `i .. k-1` were read and passed over: each has a first field, and it is not `country`. */
  ghost predicate PassedOver(rows: seq<seq<string>>, country: string, i: nat, k: nat)
    requires i <= k <= |rows|
  {
    forall t :: i <= t < k ==> |rows[t]| > 0 && rows[t][0] != country
  }

  /** The loop `for row in reader: if row[0] == country: ...` started at row `i`. */
  function ScanFrom(rows: seq<seq<string>>, country: string, i: nat): (o: Outcome)
    requires i <= |rows|
    ensures o.NotFound? <==> PassedOver(rows, country, i, |rows|)
    ensures o.Found? ==>
      i <= o.at < |rows| && PassedOver(rows, country, i, o.at)
      && |rows[o.at]| >= RowWidth && rows[o.at][0] == country
    ensures o.ShortRow? ==>
      i <= o.at < |rows| && PassedOver(rows, country, i, o.at)
      && 0 < |rows[o.at]| < RowWidth && rows[o.at][0] == country
    ensures o.EmptyRow? ==>
      i <= o.at < |rows| && PassedOver(rows, country, i, o.at) && |rows[o.at]| == 0
    decreases |rows| - i
  {
    if i == |rows| then NotFound
    else if |rows[i]| == 0 then EmptyRow(i)
    else if rows[i][0] == country then (if |rows[i]| < RowWidth then ShortRow(i) else Found(i))
    else ScanFrom(rows, country, i + 1)
  }

  function Scan(rows: seq<seq<string>>, country: string): Outcome {
    ScanFrom(rows, country, 0)
  }

  /** Rows after the one the loop stopped at are never consulted: appending rows changes nothing. */
  lemma {:induction false} LaterRowsIgnored(rows: seq<seq<string>>, more: seq<seq<string>>, country: string, i: nat)
    requires i <= |rows|
    requires !ScanFrom(rows, country, i).NotFound?
    ensures ScanFrom(rows + more, country, i) == ScanFrom(rows, country, i)
    decreases |rows| - i
  {
    assert (rows + more)[i] == rows[i];
    if |rows[i]| > 0 && rows[i][0] != country {
      LaterRowsIgnored(rows, more, country, i + 1);
    }
  }

  /** Rows already passed over do not change where the loop stops. */
  lemma {:induction false} ScanSkips(rows: seq<seq<string>>, country: string, i: nat, k: nat)
    requires i <= k <= |rows|
    requires PassedOver(rows, country, i, k)
    ensures ScanFrom(rows, country, i) == ScanFrom(rows, country, k)
    decreases k - i
  {
    if i < k {
      ScanSkips(rows, country, i + 1, k);
    }
  }

  /** First match wins: the first row naming the country decides, whatever follows it. */
  lemma ScanFirstMatch(rows: seq<seq<string>>, country: string, k: nat)
    requires k < |rows| && PassedOver(rows, country, 0, k)
    requires |rows[k]| > 0 && rows[k][0] == country
    ensures Scan(rows, country) == if |rows[k]| < RowWidth then ShortRow(k) else Found(k)
  {
    ScanSkips(rows, country, 0, k);
  }

  /** `f"{longmin},{latmin},{longmax},{latmax}"` for `row[1:5]`. */
  function BoundingBoxText(row: seq<string>): string
    requires |row| >= RowWidth
  {
    row[1] + "," + row[2] + "," + row[3] + "," + row[4]
  }

  /** Splitting text at every comma; `BoundingBoxTextSplits` shows that the four bounds can be recovered from the joined text. */
  function SplitCommas(s: string): (parts: seq<string>)
    ensures |parts| > 0
    decreases |s|
  {
    if s == [] then [""]
    else
      var rest := SplitCommas(s[1..]);
      if s[0] == ',' then [""] + rest else [[s[0]] + rest[0]] + rest[1..]
  }

  lemma {:induction false} SplitAfter(a: string, rest: string)
    requires ',' !in a
    ensures SplitCommas(a + "," + rest) == [a] + SplitCommas(rest)
    decreases |a|
  {
    var s := a + "," + rest;
    if a == [] {
      assert s == "," + rest && s[1..] == rest;
    } else {
      assert s[1..] == a[1..] + "," + rest;
      SplitAfter(a[1..], rest);
      assert [a[0]] + a[1..] == a;
    }
  }

  /** The inverse of `SplitCommas` on comma-free parts. */
  function JoinCommas(parts: seq<string>): string
    requires |parts| > 0
  {
    if |parts| == 1 then parts[0] else parts[0] + "," + JoinCommas(parts[1..])
  }

  lemma {:induction false} SplitJoin(parts: seq<string>)
    requires |parts| > 0
    requires forall p :: 0 <= p < |parts| ==> ',' !in parts[p]
    ensures SplitCommas(JoinCommas(parts)) == parts
  {
    if |parts| == 1 {
      SplitAfter(parts[0], "");
      assert SplitCommas(parts[0] + "," + "") == [parts[0]] + SplitCommas("");
      assert parts == [parts[0]];
      NoCommaSplit(parts[0]);
    } else {
      SplitJoin(parts[1..]);
      SplitAfter(parts[0], JoinCommas(parts[1..]));
      assert parts == [parts[0]] + parts[1..];
    }
  }

  lemma {:induction false} NoCommaSplit(a: string)
    requires ',' !in a
    ensures SplitCommas(a) == [a]
    decreases |a|
  {
    if a != [] {
      NoCommaSplit(a[1..]);
      assert [a[0]] + a[1..] == a;
    }
  }

  /** The four bounds survive the round trip through the comma-joined text when none holds a comma. */
  lemma BoundingBoxTextSplits(row: seq<string>)
    requires |row| >= RowWidth
    requires forall f :: 1 <= f < RowWidth ==> ',' !in row[f]
    ensures SplitCommas(BoundingBoxText(row)) == row[1..RowWidth]
  {
    var parts := row[1..RowWidth];
    assert JoinCommas(parts[3..]) == row[4];
    assert JoinCommas(parts[2..]) == row[3] + "," + row[4];
    assert JoinCommas(parts[1..]) == row[2] + "," + row[3] + "," + row[4];
    assert JoinCommas(parts) == BoundingBoxText(row);
    SplitJoin(parts);
  }
}
