/** Normalisation of the provider's raw candle table into the five-column frame the indicator
    consumes: case-insensitive renaming of the provider's columns, projection onto
    Open/High/Low/Close/Volume, numeric coercion of every cell and removal of the rows whose
    price is incomplete. */
module Candles {
  import opened Wrappers
  import opened Strings
  import opened Numbers

  /** The provider's table, with flat column labels and one row per candle in provider order. */
  datatype RawTable = RawTable(columns: seq<string>, rows: seq<seq<Cell>>)
  {
    predicate WellFormed() { forall i :: 0 <= i < |rows| ==> |rows[i]| == |columns| }

    /** pandas' DataFrame.empty: no rows or no columns. */
    predicate Empty() { |rows| == 0 || |columns| == 0 }
  }

  /** One coerced row; None is NaN. */
  type Row = seq<Option<real>>

  /** The normalised frame handed to the indicator. */
  datatype Frame = Frame(columns: seq<string>, rows: seq<Row>)
  {
    /** pandas' DataFrame.empty, as tested on the normalised frame. */
    predicate Empty() { |rows| == 0 || |columns| == 0 }
  }

  /** The frame with neither rows nor columns that stands for "no data". */
  const EmptyFrame: Frame := Frame([], [])

  /** The logical columns, in the order of the normalised frame. */
  const Needed: seq<string> := ["Open", "High", "Low", "Close", "Volume"]

  /** The first four logical columns make up the price; only they can drop a row. */
  const PriceColumns: nat := 4

  /** The entry of the renaming dictionary for a provider column, if it has one. */
  function Canonical(c: string): (r: Option<string>)
    ensures r == Some("Open") <==> Lower(c) == "open"
    ensures r == Some("High") <==> Lower(c) == "high"
    ensures r == Some("Low") <==> Lower(c) == "low"
    ensures r == Some("Close") <==> Lower(c) == "close" || Lower(c) == "adj close"
    ensures r == Some("Volume") <==> Lower(c) == "volume"
    ensures r.Some? ==> r.value in Needed
  {
    var lc := Lower(c);
    if lc == "open" then Some("Open")
    else if lc == "high" then Some("High")
    else if lc == "low" then Some("Low")
    else if lc == "close" || lc == "adj close" then Some("Close")
    else if lc == "volume" then Some("Volume")
    else None
  }

  /** The label a provider column carries after renaming. */
  function Rename(c: string): (r: string)
    ensures Canonical(c).Some? ==> r == Canonical(c).value && r in Needed
    ensures Canonical(c).None? ==> r == c
  {
    match Canonical(c)
    case Some(n) => n
    case None => c
  }

  /** rename(columns=col_map): one label per column, in the same order. */
  function RenamedColumns(columns: seq<string>): (names: seq<string>)
    ensures |names| == |columns|
    ensures forall i :: 0 <= i < |columns| ==> names[i] == Rename(columns[i])
  {
    seq(|columns|, i requires 0 <= i < |columns| => Rename(columns[i]))
  }

  /** A provider column ends up under a logical name exactly when it has a dictionary entry:
      a column that is not renamed never happens to carry a logical name already. */
  lemma RenamedIsLogicalIff(c: string)
    ensures Rename(c) in Needed <==> Canonical(c).Some?
    ensures Canonical(c).None? ==> Rename(c) == c
  {
    if c in Needed {
      var lc := Lower(c);
      if c == "Open" { assert lc == "open"; }
      else if c == "High" { assert lc == "high"; }
      else if c == "Low" { assert lc == "low"; }
      else if c == "Close" { assert lc == "close"; }
      else { assert lc == "volume"; }
    }
  }

  predicate HasAllNeeded(names: seq<string>)
  {
    forall k :: 0 <= k < |Needed| ==> Needed[k] in names
  }

  /** Two columns were renamed to the same logical name (for instance "Close" and "Adj Close"). */
  predicate Ambiguous(names: seq<string>)
  {
    exists k :: 0 <= k < |Needed| && multiset(names)[Needed[k]] > 1
  }

  function IndexOf(names: seq<string>, n: string): (i: nat)
    requires n in names
    ensures i < |names| && names[i] == n && n !in names[..i]
  {
    if names[0] == n then 0
    else
      assert names == [names[0]] + names[1..];
      var j := IndexOf(names[1..], n);
      assert names[..j + 1] == [names[0]] + names[1..][..j];
      1 + j
  }

  /** Where each logical column sits in the provider's table. */
  function Positions(names: seq<string>): (pos: seq<nat>)
    requires HasAllNeeded(names)
    ensures |pos| == |Needed|
    ensures forall k :: 0 <= k < |pos| ==> pos[k] < |names| && names[pos[k]] == Needed[k]
  {
    seq(|Needed|, k requires 0 <= k < |Needed| => IndexOf(names, Needed[k]))
  }

  function CoerceRow(row: seq<Cell>, pos: seq<nat>): (r: Row)
    requires forall k :: 0 <= k < |pos| ==> pos[k] < |row|
    ensures |r| == |pos|
    ensures forall k :: 0 <= k < |pos| ==> r[k] == Coerce(row[pos[k]])
  {
    seq(|pos|, k requires 0 <= k < |pos| => Coerce(row[pos[k]]))
  }

  /** The projected and coerced rows, before incomplete ones are dropped. */
  function Coerced(raw: RawTable, pos: seq<nat>): (rows: seq<Row>)
    requires raw.WellFormed()
    requires forall k :: 0 <= k < |pos| ==> pos[k] < |raw.columns|
    ensures |rows| == |raw.rows|
    ensures forall i :: 0 <= i < |raw.rows| ==> rows[i] == CoerceRow(raw.rows[i], pos)
  {
    seq(|raw.rows|, i requires 0 <= i < |raw.rows| => CoerceRow(raw.rows[i], pos))
  }

  /** dropna over the price columns: Open, High, Low and Close are all numbers. */
  predicate PricesPresent(row: Row)
  {
    |row| >= PriceColumns && forall k :: 0 <= k < PriceColumns ==> row[k].Some?
  }

  /** The rows that dropna keeps, in their original order. */
  function DropIncomplete(rows: seq<Row>): seq<Row>
  {
    if rows == [] then []
    else
      var last := rows[|rows| - 1];
      DropIncomplete(rows[..|rows| - 1]) + (if PricesPresent(last) then [last] else [])
  }

  /** The positions of the rows that dropna keeps. */
  function KeptIndices(rows: seq<Row>): seq<nat>
  {
    if rows == [] then []
    else
      var n := |rows| - 1;
      KeptIndices(rows[..n]) + (if PricesPresent(rows[n]) then [n] else [])
  }

  /** The kept rows are exactly the rows at KeptIndices: a strictly increasing list of
      positions that holds a position precisely when that row's price is complete. So the
      output is a subsequence of the input in the original order. */
  lemma {:induction false} DropIncompleteIsSubsequence(rows: seq<Row>)
    ensures var kept, idx := DropIncomplete(rows), KeptIndices(rows);
      |kept| == |idx| <= |rows|
      && (forall k :: 0 <= k < |idx| ==> idx[k] < |rows| && kept[k] == rows[idx[k]])
      && (forall k, l :: 0 <= k < l < |idx| ==> idx[k] < idx[l])
      && (forall i :: 0 <= i < |rows| ==> (i in idx <==> PricesPresent(rows[i])))
  {
    if rows != [] {
      var n := |rows| - 1;
      var front := rows[..n];
      DropIncompleteIsSubsequence(front);
      var kept, idx := DropIncomplete(rows), KeptIndices(rows);
      assert forall k :: 0 <= k < |KeptIndices(front)| ==> KeptIndices(front)[k] < n;
      forall i | 0 <= i < |rows|
        ensures i in idx <==> PricesPresent(rows[i])
      {
        if i < n {
          assert rows[i] == front[i];
          assert i in idx <==> i in KeptIndices(front);
        }
      }
    }
  }

  /** Every kept row has its price. */
  lemma {:induction false} KeptRowsArePriced(rows: seq<Row>)
    ensures forall k :: 0 <= k < |DropIncomplete(rows)| ==> PricesPresent(DropIncomplete(rows)[k])
  {
    DropIncompleteIsSubsequence(rows);
  }

  /** download_data after the provider has answered. The result is the empty frame when the
      provider sent nothing or a logical column is missing, raises when two provider columns
      collapse onto one logical name, and is otherwise the five logical columns with the rows
      whose price survived coercion. */
  function DownloadData(raw: RawTable): (r: Outcome<Frame>)
    requires raw.WellFormed()
    ensures r == Returned(EmptyFrame) <==> raw.Empty() || !HasAllNeeded(RenamedColumns(raw.columns))
    ensures r.Raised? <==> !raw.Empty() && HasAllNeeded(RenamedColumns(raw.columns)) && Ambiguous(RenamedColumns(raw.columns))
    ensures r.Returned? && r.value != EmptyFrame ==>
      r.value.columns == Needed && |r.value.rows| <= |raw.rows|
      && forall k :: 0 <= k < |r.value.rows| ==> |r.value.rows[k]| == |Needed| && PricesPresent(r.value.rows[k])
    ensures r.Returned? && r.value != EmptyFrame ==>
      HasAllNeeded(RenamedColumns(raw.columns))
      && r.value.rows == DropIncomplete(Coerced(raw, Positions(RenamedColumns(raw.columns))))
  {
    if raw.Empty() then Returned(EmptyFrame)
    else
      var names := RenamedColumns(raw.columns);
      if !HasAllNeeded(names) then Returned(EmptyFrame)
      else if Ambiguous(names) then Raised
      else
        var rows := Coerced(raw, Positions(names));
        DropIncompleteIsSubsequence(rows);
        KeptRowsArePriced(rows);
        Returned(Frame(Needed, DropIncomplete(rows)))
  }

  /** A row of the selected columns is kept exactly when its price cells all coerce to numbers;
      the cell at the Volume position plays no part. */
  lemma RowKeptIffAt(raw: RawTable, pos: seq<nat>, i: nat)
    requires raw.WellFormed() && i < |raw.rows| && |pos| == |Needed|
    requires forall k :: 0 <= k < |pos| ==> pos[k] < |raw.columns|
    ensures i in KeptIndices(Coerced(raw, pos))
      <==> forall k :: 0 <= k < PriceColumns ==> Coerce(raw.rows[i][pos[k]]).Some?
  {
    var rows := Coerced(raw, pos);
    DropIncompleteIsSubsequence(rows);
    assert i in KeptIndices(rows) <==> PricesPresent(rows[i]);
    assert forall k :: 0 <= k < PriceColumns ==> rows[i][k] == Coerce(raw.rows[i][pos[k]]);
  }

  /** The same, for the positions at which download_data finds the logical columns. */
  lemma RowKeptIff(raw: RawTable, i: nat)
    requires raw.WellFormed() && i < |raw.rows|
    requires HasAllNeeded(RenamedColumns(raw.columns))
    ensures var pos := Positions(RenamedColumns(raw.columns));
      i in KeptIndices(Coerced(raw, pos))
      <==> forall k :: 0 <= k < PriceColumns ==> Coerce(raw.rows[i][pos[k]]).Some?
  {
    RowKeptIffAt(raw, Positions(RenamedColumns(raw.columns)), i);
  }

  /** For a non-empty answer with each logical column exactly once, download_data returns the
      five columns, and its rows are the provider's rows, projected onto the logical columns
      and coerced, at a strictly increasing list of positions; a provider row is on that list
      exactly when its four price cells coerce to numbers. */
  lemma DownloadKeepsPricedRowsInOrder(raw: RawTable)
    requires raw.WellFormed() && !raw.Empty()
    requires HasAllNeeded(RenamedColumns(raw.columns)) && !Ambiguous(RenamedColumns(raw.columns))
    ensures DownloadData(raw).Returned? && DownloadData(raw).value.columns == Needed
    ensures var pos := Positions(RenamedColumns(raw.columns));
      var rows, idx := DownloadData(raw).value.rows, KeptIndices(Coerced(raw, pos));
      |rows| == |idx|
      && (forall k :: 0 <= k < |idx| ==> idx[k] < |raw.rows| && rows[k] == CoerceRow(raw.rows[idx[k]], pos))
      && (forall k, l :: 0 <= k < l < |idx| ==> idx[k] < idx[l])
      && (forall i :: 0 <= i < |raw.rows| ==>
            (i in idx <==> forall c :: 0 <= c < PriceColumns ==> Coerce(raw.rows[i][pos[c]]).Some?))
  {
    var pos := Positions(RenamedColumns(raw.columns));
    DropIncompleteIsSubsequence(Coerced(raw, pos));
    forall i | 0 <= i < |raw.rows|
      ensures i in KeptIndices(Coerced(raw, pos))
        <==> forall c :: 0 <= c < PriceColumns ==> Coerce(raw.rows[i][pos[c]]).Some?
    {
      RowKeptIffAt(raw, pos, i);
    }
  }

  /** The coerced column at provider position p, as the coercion loop writes it. */
  function CoerceColumn(raw: RawTable, p: nat): (col: seq<Option<real>>)
    requires raw.WellFormed() && p < |raw.columns|
    ensures |col| == |raw.rows|
    ensures forall i :: 0 <= i < |raw.rows| ==> col[i] == Coerce(raw.rows[i][p])
  {
    seq(|raw.rows|, i requires 0 <= i < |raw.rows| => Coerce(raw.rows[i][p]))
  }

  /** The renaming dictionary of download_data, built column by column: it holds an entry for
      exactly the provider columns whose lower-cased label is a logical name or "adj close". */
  method BuildColumnMap(columns: seq<string>) returns (colMap: map<string, string>)
    ensures forall c :: c in colMap <==> c in columns && Canonical(c).Some?
    ensures forall c :: c in colMap ==> Canonical(c) == Some(colMap[c])
  {
    colMap := map[];
    var i := 0;
    while i < |columns|
      invariant 0 <= i <= |columns|
      invariant forall c :: c in colMap <==> c in columns[..i] && Canonical(c).Some?
      invariant forall c :: c in colMap ==> Canonical(c) == Some(colMap[c])
    {
      var c := columns[i];
      var lc := Lower(c);
      if lc == "open" {
        colMap := colMap[c := "Open"];
      } else if lc == "high" {
        colMap := colMap[c := "High"];
      } else if lc == "low" {
        colMap := colMap[c := "Low"];
      } else if lc == "close" || lc == "adj close" {
        colMap := colMap[c := "Close"];
      } else if lc == "volume" {
        colMap := colMap[c := "Volume"];
      }
      assert columns[..i + 1] == columns[..i] + [c];
      i := i + 1;
    }
    assert columns[..|columns|] == columns;
  }

  /** The coercion loop over the five selected columns. Selecting a label that two provider
      columns share yields a two-dimensional block, on which the numeric conversion raises. */
  method CoerceSelected(raw: RawTable, names: seq<string>) returns (r: Outcome<seq<seq<Option<real>>>>)
    requires raw.WellFormed() && |names| == |raw.columns| && HasAllNeeded(names)
    ensures r.Raised? <==> Ambiguous(names)
    ensures r.Returned? ==> |r.value| == |Needed|
    ensures r.Returned? ==> forall l :: 0 <= l < |Needed| ==> r.value[l] == CoerceColumn(raw, Positions(names)[l])
    ensures r.Returned? ==> forall l :: 0 <= l < |Needed| ==> |r.value[l]| == |raw.rows|
  {
    var pos := Positions(names);
    var columns: seq<seq<Option<real>>> := [];
    var k := 0;
    while k < |Needed|
      invariant 0 <= k <= |Needed| && |columns| == k
      invariant forall l :: 0 <= l < k ==> multiset(names)[Needed[l]] <= 1
      invariant forall l :: 0 <= l < k ==> columns[l] == CoerceColumn(raw, pos[l])
    {
      if multiset(names)[Needed[k]] > 1 {
        return Raised;
      }
      columns := columns + [CoerceColumn(raw, pos[k])];
      k := k + 1;
    }
    return Returned(columns);
  }

  /** Reading across the five coerced columns at row i gives the coerced row i. */
  lemma RowAcrossColumns(raw: RawTable, pos: seq<nat>, columns: seq<seq<Option<real>>>, i: nat)
    requires raw.WellFormed() && |pos| == |Needed| && |columns| == |Needed| && i < |raw.rows|
    requires forall k :: 0 <= k < |pos| ==> pos[k] < |raw.columns|
    requires forall l :: 0 <= l < |Needed| ==> columns[l] == CoerceColumn(raw, pos[l])
    requires forall l :: 0 <= l < |Needed| ==> |columns[l]| == |raw.rows|
    ensures [columns[0][i], columns[1][i], columns[2][i], columns[3][i], columns[4][i]] == Coerced(raw, pos)[i]
  {
    var row := Coerced(raw, pos)[i];
    assert row == CoerceRow(raw.rows[i], pos);
    forall l | 0 <= l < |Needed| ensures columns[l][i] == row[l] {
      assert columns[l] == CoerceColumn(raw, pos[l]);
    }
  }

  /** dropna over the price columns: walks the rows in order and keeps the complete ones. */
  method DropIncompleteRows(raw: RawTable, pos: seq<nat>, columns: seq<seq<Option<real>>>) returns (kept: seq<Row>)
    requires raw.WellFormed() && |pos| == |Needed| && |columns| == |Needed|
    requires forall k :: 0 <= k < |pos| ==> pos[k] < |raw.columns|
    requires forall l :: 0 <= l < |Needed| ==> columns[l] == CoerceColumn(raw, pos[l])
    requires forall l :: 0 <= l < |Needed| ==> |columns[l]| == |raw.rows|
    ensures kept == DropIncomplete(Coerced(raw, pos))
  {
    ghost var coerced := Coerced(raw, pos);
    kept := [];
    var i := 0;
    while i < |raw.rows|
      invariant 0 <= i <= |raw.rows|
      invariant kept == DropIncomplete(coerced[..i])
    {
      var row := [columns[0][i], columns[1][i], columns[2][i], columns[3][i], columns[4][i]];
      RowAcrossColumns(raw, pos, columns, i);
      if PricesPresent(row) {
        kept := kept + [row];
      }
      assert coerced[..i + 1][..i] == coerced[..i];
      i := i + 1;
    }
    assert coerced[..|raw.rows|] == coerced;
  }

  /** download_data once the provider has answered, step by step as app.py runs it. */
  method NormalizeDownload(raw: RawTable) returns (r: Outcome<Frame>)
    requires raw.WellFormed()
    ensures r == DownloadData(raw)
  {
    if raw.Empty() {
      return Returned(EmptyFrame);
    }
    var cols := raw.columns;
    var colMap := BuildColumnMap(cols);
    var names := seq(|cols|, j requires 0 <= j < |cols| => if cols[j] in colMap then colMap[cols[j]] else cols[j]);
    assert names == RenamedColumns(cols) by {
      forall j | 0 <= j < |cols| ensures names[j] == Rename(cols[j]) {
        assert cols[j] in cols;
      }
    }
    if exists k :: 0 <= k < |Needed| && Needed[k] !in names {
      return Returned(EmptyFrame);
    }
    var selected := CoerceSelected(raw, names);
    if selected.Raised? {
      return Raised;
    }
    var kept := DropIncompleteRows(raw, Positions(names), selected.value);
    return Returned(Frame(Needed, kept));
  }

  /** A column that already carries a logical name keeps it. */
  lemma LogicalNameStays(n: string)
    requires n in Needed
    ensures Rename(n) == n
  {
    if n == "Open" { assert Lower(n) == "open"; }
    else if n == "High" { assert Lower(n) == "high"; }
    else if n == "Low" { assert Lower(n) == "low"; }
    else if n == "Close" { assert Lower(n) == "close"; }
    else { assert Lower(n) == "volume"; }
  }

  /** A provider table labelled exactly with the logical names is selected in place. */
  lemma LogicalColumnsSelectInPlace()
    ensures RenamedColumns(Needed) == Needed
    ensures HasAllNeeded(Needed) && !Ambiguous(Needed)
    ensures Positions(Needed) == [0, 1, 2, 3, 4]
  {
    forall k | 0 <= k < |Needed| ensures RenamedColumns(Needed)[k] == Needed[k] {
      LogicalNameStays(Needed[k]);
    }
    LogicalNamesDistinct();
    LogicalPositions();
  }

  lemma LogicalNamesDistinct()
    ensures !Ambiguous(Needed)
  {
    assert multiset(Needed) == multiset{"Open", "High", "Low", "Close", "Volume"};
  }

  lemma LogicalPositions()
    ensures Positions(Needed) == [0, 1, 2, 3, 4]
  {
    assert IndexOf(Needed, "Open") == 0;
    assert IndexOf(Needed, "High") == 1;
    assert IndexOf(Needed, "Low") == 2;
    assert IndexOf(Needed, "Close") == 3;
    assert IndexOf(Needed, "Volume") == 4;
  }

  /** A non-empty provider table labelled exactly with the logical names is coerced in
      place and filtered. */
  lemma LogicalTableNormalises(raw: RawTable)
    requires raw.WellFormed() && raw.columns == Needed && raw.rows != []
    ensures DownloadData(raw) == Returned(Frame(Needed, DropIncomplete(Coerced(raw, [0, 1, 2, 3, 4]))))
  {
    LogicalColumnsSelectInPlace();
  }

  /** Of three coerced rows whose second lacks one of its prices, dropna keeps the first and
      third. */
  lemma DropsRowWithoutPrice(a: Row, b: Row, c: Row)
    requires PricesPresent(a) && !PricesPresent(b) && PricesPresent(c)
    ensures DropIncomplete([a, b, c]) == [a, c]
  {
    assert [a][..0] == [];
    assert DropIncomplete([a]) == [a];
    assert [a, b][..1] == [a];
    assert DropIncomplete([a, b]) == [a];
    assert [a, b, c][..2] == [a, b];
  }

  /** The coerced, filtered rows of that table. */
  lemma NotAvailableCloseRows(raw: RawTable)
    requires raw == RawTable(Needed,
                             [[Num(1.0), Num(2.0), Num(0.5), Num(1.5), Num(10.0)],
                              [Num(1.5), Num(2.5), Num(1.0), Text("N/A"), Num(12.0)],
                              [Num(2.0), Num(3.0), Num(1.5), Num(2.5), Null]])
    ensures DropIncomplete(Coerced(raw, [0, 1, 2, 3, 4])) ==
      [[Some(1.0), Some(2.0), Some(0.5), Some(1.5), Some(10.0)],
       [Some(2.0), Some(3.0), Some(1.5), Some(2.5), None]]
  {
    PlaceholdersAreMissing();
    var pos := [0, 1, 2, 3, 4];
    var rows := Coerced(raw, pos);
    assert rows[0] == CoerceRow(raw.rows[0], pos);
    assert rows[1] == CoerceRow(raw.rows[1], pos);
    assert rows[2] == CoerceRow(raw.rows[2], pos);
    assert rows[0] == [Some(1.0), Some(2.0), Some(0.5), Some(1.5), Some(10.0)];
    assert rows[1][3] == None;
    assert rows[2] == [Some(2.0), Some(3.0), Some(1.5), Some(2.5), None];
    assert rows == [rows[0], rows[1], rows[2]];
    assert !PricesPresent(rows[1]);
    DropsRowWithoutPrice(rows[0], rows[1], rows[2]);
    assert DropIncomplete(rows) == [rows[0], rows[2]];
  }

  /** For three provider rows whose second Close is the text "N/A", download_data returns the
      first and third rows only; the missing Volume of the third row does not drop it. */
  lemma NotAvailableCloseIsDropped(raw: RawTable)
    requires raw == RawTable(Needed,
                             [[Num(1.0), Num(2.0), Num(0.5), Num(1.5), Num(10.0)],
                              [Num(1.5), Num(2.5), Num(1.0), Text("N/A"), Num(12.0)],
                              [Num(2.0), Num(3.0), Num(1.5), Num(2.5), Null]])
    ensures DownloadData(raw) == Returned(Frame(Needed,
      [[Some(1.0), Some(2.0), Some(0.5), Some(1.5), Some(10.0)],
       [Some(2.0), Some(3.0), Some(1.5), Some(2.5), None]]))
  {
    LogicalTableNormalises(raw);
    NotAvailableCloseRows(raw);
  }
}
