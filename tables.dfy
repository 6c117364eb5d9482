/** Identifier and description columns of extracted tables, and the parts their rows yield. */
module Tables {
  import opened Optional
  import opened Strings
  import opened Utils
  import opened Schemas

  /** A table cell as the PDF layer returns it: None for a cell with no text. */
  type Cell = Option<string>
  type Row = seq<Cell>
  type Table = seq<Row>

  /** `bool(cell)` */
  predicate Filled(c: Cell)
  {
    c.Some? && c.value != ""
  }

  const PART_KEYWORDS: seq<string> := ["part", "number", "item", "sku", "code"]
  const DESCRIPTION_KEYWORDS: seq<string> := ["description", "desc", "name", "title"]

  /** `any(keyword in header.lower() for keyword in keywords)` */
  predicate NamesColumn(header: string, keywords: seq<string>)
  {
    exists k :: k in keywords && Contains(LowerStr(header), k)
  }

  predicate IsColumn(header: Row, keywords: seq<string>, i: int)
    requires 0 <= i < |header|
  {
    Filled(header[i]) && NamesColumn(header[i].value, keywords)
  }

  /** The least index from `i` on whose cell is filled and names the column. */
  function FindColumnFrom(header: Row, keywords: seq<string>, i: nat): (r: Option<nat>)
    ensures r.Some? ==> i <= r.value < |header| && IsColumn(header, keywords, r.value)
    ensures r.Some? ==> forall j :: i <= j < r.value ==> !IsColumn(header, keywords, j)
    ensures r.None? ==> forall j :: i <= j < |header| ==> !IsColumn(header, keywords, j)
    decreases |header| - i
  {
    if i >= |header| then None
    else if IsColumn(header, keywords, i) then Some(i)
    else FindColumnFrom(header, keywords, i + 1)
  }

  /** `_find_part_number_column`: None for an empty header, else the least matching index. */
  function FindPartNumberColumn(header: Row): (r: Option<nat>)
    ensures header == [] ==> r.None?
    ensures r.Some? ==> (r.value < |header| && IsColumn(header, PART_KEYWORDS, r.value)
      && forall j :: 0 <= j < r.value ==> !IsColumn(header, PART_KEYWORDS, j))
    ensures r.None? ==> forall j :: 0 <= j < |header| ==> !IsColumn(header, PART_KEYWORDS, j)
  {
    FindColumnFrom(header, PART_KEYWORDS, 0)
  }

  /** `_find_description_column`: the same rule with the description keywords. */
  function FindDescriptionColumn(header: Row): (r: Option<nat>)
    ensures header == [] ==> r.None?
    ensures r.Some? ==> (r.value < |header| && IsColumn(header, DESCRIPTION_KEYWORDS, r.value)
      && forall j :: 0 <= j < r.value ==> !IsColumn(header, DESCRIPTION_KEYWORDS, j))
    ensures r.None? ==> forall j :: 0 <= j < |header| ==> !IsColumn(header, DESCRIPTION_KEYWORDS, j)
  {
    FindColumnFrom(header, DESCRIPTION_KEYWORDS, 0)
  }

  /** Each search takes the least matching cell. */
  lemma PartColumnExample()
    ensures FindPartNumberColumn([Some("Item #"), Some("Desc"), Some("Qty")]) == Some(0)
  {
    ItemHeaderNamesPart();
  }

  lemma ItemHeaderNamesPart()
    ensures NamesColumn("Item #", PART_KEYWORDS)
  {
    assert LowerStr("Item #") == "item #";
    ContainsAt("item #", "item", 0);
    assert PART_KEYWORDS[2] == "item";
  }

  /** The description search does not stop at the identifier column. */
  lemma DescriptionColumnExample()
    ensures FindDescriptionColumn([Some("Item #"), Some("Desc"), Some("Qty")]) == Some(1)
  {
    var h := [Some("Item #"), Some("Desc"), Some("Qty")];
    ItemHeaderNamesNoDescription();
    DescHeaderNamesDescription();
    assert !IsColumn(h, DESCRIPTION_KEYWORDS, 0);
    assert FindColumnFrom(h, DESCRIPTION_KEYWORDS, 1) == Some(1);
  }

  lemma ItemHeaderNamesNoDescription()
    ensures !NamesColumn("Item #", DESCRIPTION_KEYWORDS)
  {
    ItemHeaderLower();
    NoDescriptionKeywordInItem();
  }

  lemma ItemHeaderLower()
    ensures LowerStr("Item #") == "item #"
  {
    var low := LowerStr("Item #");
    assert low[0] == 'i' && low[1] == 't' && low[2] == 'e' && low[3] == 'm' && low[4] == ' ' && low[5] == '#';
  }

  lemma NoDescriptionKeywordInItem()
    ensures forall k :: k in DESCRIPTION_KEYWORDS ==> !Contains("item #", k)
  {
    MissingCharNotContained("item #", "description", 'd');
    MissingCharNotContained("item #", "desc", 'd');
    MissingCharNotContained("item #", "name", 'n');
    MissingCharNotContained("item #", "title", 'l');
  }

  lemma DescHeaderNamesDescription()
    ensures NamesColumn("Desc", DESCRIPTION_KEYWORDS)
  {
    assert LowerStr("Desc") == "desc";
    ContainsAt("desc", "desc", 0);
    assert DESCRIPTION_KEYWORDS[1] == "desc";
  }

  /** One header cell may serve as both columns. */
  lemma SharedColumnExample()
    ensures FindPartNumberColumn([Some("Part Name")]) == Some(0)
    ensures FindDescriptionColumn([Some("Part Name")]) == Some(0)
  {
    PartNameHeader();
  }

  lemma PartNameHeader()
    ensures NamesColumn("Part Name", PART_KEYWORDS)
    ensures NamesColumn("Part Name", DESCRIPTION_KEYWORDS)
  {
    PartNameLower();
    assert PART_KEYWORDS[0] == "part";
    assert DESCRIPTION_KEYWORDS[2] == "name";
  }

  lemma PartNameLower()
    ensures LowerStr("Part Name") == "part name"
    ensures Contains("part name", "part") && Contains("part name", "name")
  {
    var low := "part name";
    assert LowerStr("Part Name") == low;
    PartNameWords(low);
  }

  lemma PartNameWords(low: string)
    requires low == "part name"
    ensures Contains(low, "part") && Contains(low, "name")
  {
    assert low[..4] == "part";
    assert low[5..9] == "name";
    ContainsAt(low, "part", 0);
    ContainsAt(low, "name", 5);
  }

  /** The stripped text of a filled cell, `""` for an empty one. */
  function CellText(c: Cell): string
  {
    if Filled(c) then Strip(c.value) else ""
  }

  /** What every table part carries: a valid identifier, its page, the initial status and no category. */
  predicate FromTableRow(p: Part, pageNum: int)
  {
    ValidatePartNumber(p.partNumber) && p.pageReference == pageNum && p.status == Extracted && p.category == ""
  }

  /** The part one data row yields, if its identifier cell holds a valid identifier. */
  function RowPart(row: Row, partCol: nat, descCol: Option<nat>, pageNum: int): (r: Option<Part>)
    ensures r.Some? ==> FromTableRow(r.value, pageNum)
    ensures r.Some? <==> row != [] && |row| > partCol && ValidatePartNumber(CellText(row[partCol]))
    ensures r.Some? ==> r.value.partNumber == CellText(row[partCol])
    ensures r.Some? ==>
      r.value.description == (if descCol.Some? && |row| > descCol.value then CellText(row[descCol.value]) else "")
  {
    if row == [] || |row| <= partCol then None
    else
      var partNumber := CellText(row[partCol]);
      if !ValidatePartNumber(partNumber) then None
      else
        var description := if descCol.Some? && |row| > descCol.value then CellText(row[descCol.value]) else "";
        Some(NewPart(partNumber).(description := description, pageReference := pageNum))
  }

  /** Parts of the data rows, in row order. */
  function RowsParts(rows: seq<Row>, partCol: nat, descCol: Option<nat>, pageNum: int): (r: seq<Part>)
    ensures |r| <= |rows|
    ensures forall p :: p in r ==> FromTableRow(p, pageNum)
  {
    if rows == [] then []
    else
      var last := RowPart(rows[|rows| - 1], partCol, descCol, pageNum);
      RowsParts(rows[..|rows| - 1], partCol, descCol, pageNum) + (if last.Some? then [last.value] else [])
  }

  /** The row loop works row by row: the parts of two runs of rows are the parts of each, in order. */
  lemma {:induction false} RowsPartsConcat(a: seq<Row>, b: seq<Row>, partCol: nat, descCol: Option<nat>, pageNum: int)
    ensures RowsParts(a + b, partCol, descCol, pageNum)
      == RowsParts(a, partCol, descCol, pageNum) + RowsParts(b, partCol, descCol, pageNum)
    decreases |b|
  {
    if b != [] {
      var b' := b[..|b| - 1];
      var last := RowPart(b[|b| - 1], partCol, descCol, pageNum);
      var tail := if last.Some? then [last.value] else [];
      RowsPartsConcat(a, b', partCol, descCol, pageNum);
      assert (a + b)[..|a + b| - 1] == a + b';
      assert (a + b)[|a + b| - 1] == b[|b| - 1];
      assert RowsParts(a + b, partCol, descCol, pageNum) == RowsParts(a + b', partCol, descCol, pageNum) + tail;
      assert RowsParts(b, partCol, descCol, pageNum) == RowsParts(b', partCol, descCol, pageNum) + tail;
    } else {
      assert a + b == a;
    }
  }

  /** The parts of the rows are exactly the parts the single rows yield: every valid row gives one. */
  lemma {:induction false} RowsPartsExact(rows: seq<Row>, partCol: nat, descCol: Option<nat>, pageNum: int)
    ensures forall p :: p in RowsParts(rows, partCol, descCol, pageNum) <==>
      exists i :: 0 <= i < |rows| && RowPart(rows[i], partCol, descCol, pageNum) == Some(p)
  {
    if rows != [] {
      var front := rows[..|rows| - 1];
      RowsPartsExact(front, partCol, descCol, pageNum);
      forall p {
        SnocMembers(RowsParts(rows, partCol, descCol, pageNum), RowsParts(front, partCol, descCol, pageNum),
          rows, front, row => RowPart(row, partCol, descCol, pageNum), p);
      }
    }
  }

  /** One more element of a list filtered through `f` adds its value, if it has one. */
  lemma SnocMembers<T, U>(whole: seq<U>, front: seq<U>, xs: seq<T>, init: seq<T>, f: T -> Option<U>, y: U)
    requires xs != [] && init == xs[..|xs| - 1]
    requires whole == front + (if f(xs[|xs| - 1]).Some? then [f(xs[|xs| - 1]).value] else [])
    requires y in front <==> exists i :: 0 <= i < |init| && f(init[i]) == Some(y)
    ensures y in whole <==> exists i :: 0 <= i < |xs| && f(xs[i]) == Some(y)
  {
    if y in front {
      var i :| 0 <= i < |init| && f(init[i]) == Some(y);
      assert init[i] == xs[i];
    }
    if i :| 0 <= i < |xs| && f(xs[i]) == Some(y) {
      if i < |init| {
        assert init[i] == xs[i];
      }
    }
  }

  /** One more list of a concatenation adds its elements. */
  lemma AppendMembers<T, U>(whole: seq<U>, front: seq<U>, xs: seq<T>, init: seq<T>, f: T -> seq<U>, y: U)
    requires xs != [] && init == xs[..|xs| - 1]
    requires whole == front + f(xs[|xs| - 1])
    requires y in front <==> exists i :: 0 <= i < |init| && y in f(init[i])
    ensures y in whole <==> exists i :: 0 <= i < |xs| && y in f(xs[i])
  {
    if y in front {
      var i :| 0 <= i < |init| && y in f(init[i]);
      assert init[i] == xs[i];
    }
    if i :| 0 <= i < |xs| && y in f(xs[i]) {
      if i < |init| {
        assert init[i] == xs[i];
      }
    }
  }

  /** Rows below the header, 0 for a table too short to have any. */
  function DataRows(table: Table): nat
  {
    if |table| < 2 then 0 else |table| - 1
  }

  /** The parts of one table: none without a header and a data row, or without an identifier column. */
  function TableParts(table: Table, pageNum: int): (r: seq<Part>)
    ensures |r| <= DataRows(table)
    ensures forall p :: p in r ==> FromTableRow(p, pageNum)
    ensures |table| >= 2 && FindPartNumberColumn(table[0]).None? ==> r == []
  {
    if |table| < 2 then []
    else match FindPartNumberColumn(table[0])
      case None => []
      case Some(partCol) => RowsParts(table[1..], partCol, FindDescriptionColumn(table[0]), pageNum)
  }

  function SumDataRows(tables: seq<Table>): nat
  {
    if tables == [] then 0 else SumDataRows(tables[..|tables| - 1]) + DataRows(tables[|tables| - 1])
  }

  /** `_extract_parts_from_tables`: the tables' parts in table order. */
  function TablesParts(tables: seq<Table>, pageNum: int): (r: seq<Part>)
    ensures |r| <= SumDataRows(tables)
    ensures forall p :: p in r ==> FromTableRow(p, pageNum)
  {
    if tables == [] then []
    else TablesParts(tables[..|tables| - 1], pageNum) + TableParts(tables[|tables| - 1], pageNum)
  }

  /**
   * A table yields exactly the parts of its data rows under its identifier and
   * description columns, and nothing without a data row or an identifier column.
   */
  lemma TablePartsExact(table: Table, pageNum: int)
    ensures forall p :: p in TableParts(table, pageNum) <==>
      |table| >= 2 && FindPartNumberColumn(table[0]).Some? &&
      exists i :: 1 <= i < |table| &&
        RowPart(table[i], FindPartNumberColumn(table[0]).value, FindDescriptionColumn(table[0]), pageNum) == Some(p)
  {
    if |table| >= 2 && FindPartNumberColumn(table[0]).Some? {
      var partCol := FindPartNumberColumn(table[0]).value;
      var descCol := FindDescriptionColumn(table[0]);
      RowsPartsExact(table[1..], partCol, descCol, pageNum);
      forall p
        ensures (exists i :: 0 <= i < |table[1..]| && RowPart(table[1..][i], partCol, descCol, pageNum) == Some(p))
          <==> (exists i :: 1 <= i < |table| && RowPart(table[i], partCol, descCol, pageNum) == Some(p))
      {
        if i :| 1 <= i < |table| && RowPart(table[i], partCol, descCol, pageNum) == Some(p) {
          assert table[1..][i - 1] == table[i];
        }
      }
    }
  }

  /** The tables' parts are the parts of each table, in table order. */
  lemma {:induction false} TablesPartsConcat(a: seq<Table>, b: seq<Table>, pageNum: int)
    ensures TablesParts(a + b, pageNum) == TablesParts(a, pageNum) + TablesParts(b, pageNum)
    decreases |b|
  {
    if b != [] {
      var b' := b[..|b| - 1];
      var tail := TableParts(b[|b| - 1], pageNum);
      TablesPartsConcat(a, b', pageNum);
      assert (a + b)[..|a + b| - 1] == a + b';
      assert (a + b)[|a + b| - 1] == b[|b| - 1];
      assert TablesParts(a + b, pageNum) == TablesParts(a + b', pageNum) + tail;
      assert TablesParts(b, pageNum) == TablesParts(b', pageNum) + tail;
    } else {
      assert a + b == a;
    }
  }

  /** A part comes out of the tables exactly when one of the tables yields it. */
  lemma {:induction false} TablesPartsExact(tables: seq<Table>, pageNum: int)
    ensures forall p :: p in TablesParts(tables, pageNum) <==> exists t :: 0 <= t < |tables| && p in TableParts(tables[t], pageNum)
  {
    if tables != [] {
      var front := tables[..|tables| - 1];
      TablesPartsExact(front, pageNum);
      forall p {
        AppendMembers(TablesParts(tables, pageNum), TablesParts(front, pageNum), tables, front, t => TableParts(t, pageNum), p);
      }
    }
  }

  lemma TablesPartsStep(tables: seq<Table>, t: nat, pageNum: int)
    requires t < |tables|
    ensures TablesParts(tables[..t + 1], pageNum) == TablesParts(tables[..t], pageNum) + TableParts(tables[t], pageNum)
  {
    assert tables[..t + 1][..t] == tables[..t];
  }

  lemma RowsPartsStep(rows: seq<Row>, r: nat, partCol: nat, descCol: Option<nat>, pageNum: int)
    requires r < |rows|
    ensures var p := RowPart(rows[r], partCol, descCol, pageNum);
      RowsParts(rows[..r + 1], partCol, descCol, pageNum)
      == RowsParts(rows[..r], partCol, descCol, pageNum) + (if p.Some? then [p.value] else [])
  {
    assert rows[..r + 1][..r] == rows[..r];
  }

  /** `_extract_parts_from_tables` as the source runs it: a loop over tables and their data rows. */
  method ExtractPartsFromTables(tables: seq<Table>, pageNum: int) returns (parts: seq<Part>)
    ensures parts == TablesParts(tables, pageNum)
  {
    parts := [];
    for t := 0 to |tables|
      invariant parts == TablesParts(tables[..t], pageNum)
    {
      TablesPartsStep(tables, t, pageNum);
      var found := ExtractTableParts(tables[t], pageNum);
      parts := parts + found;
    }
    assert tables[..|tables|] == tables;
  }

  /** One table of the loop: the header picks the columns, then each data row in turn. */
  method ExtractTableParts(table: Table, pageNum: int) returns (found: seq<Part>)
    ensures found == TableParts(table, pageNum)
  {
    found := [];
    if |table| >= 2 {
      var partCol := FindPartNumberColumn(table[0]);
      var descCol := FindDescriptionColumn(table[0]);
      if partCol.Some? {
        found := ExtractRows(table[1..], partCol.value, descCol, pageNum);
      }
    }
  }

  /** The row loop of one table: a row's part is appended when its identifier validates. */
  method ExtractRows(rows: seq<Row>, partCol: nat, descCol: Option<nat>, pageNum: int) returns (found: seq<Part>)
    ensures found == RowsParts(rows, partCol, descCol, pageNum)
  {
    found := [];
    for r := 0 to |rows|
      invariant found == RowsParts(rows[..r], partCol, descCol, pageNum)
    {
      RowsPartsStep(rows, r, partCol, descCol, pageNum);
      var part := RowPart(rows[r], partCol, descCol, pageNum);
      if part.Some? {
        found := found + [part.value];
      }
    }
    assert rows[..|rows|] == rows;
  }
}
