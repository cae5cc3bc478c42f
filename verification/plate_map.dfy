/** The tab-grid flattener of the station C protocol: a multi-line,
    tab-separated plate map becomes a list of 96 labels indexed by
    `row * 12 + col`. The source writes every cell it finds, in row-major
    order, without bounding the column: an over-long row spills into the
    next row's slots, and only a write at index 96 or beyond fails. */
module PlateMap {
  import opened Results
  import opened Text

  const Columns: nat := 12
  const Rows: nat := 8
  const Wells: nat := 96

  /** Only newlines and spaces are stripped from the ends of a map; tabs stay. */
  const MapBlanks: set<char> := {'\n', ' '}

  /** The IndexError raised when cell `col` of line `row` lands at
      `row * 12 + col >= 96`. */
  datatype GridError = CellOutOfRange(row: nat, col: nat)

  /** The cells of a map: the stripped text split on newlines, each line
      split on tabs. No cell keeps a tab or a newline, so with `SplitJoin`
      the contract determines the cells. */
  function Cells(text: string): (rows: seq<seq<string>>)
    ensures |rows| >= 1
    ensures forall i :: 0 <= i < |rows| ==> |rows[i]| >= 1
    ensures Clean(rows)
    ensures Join(RowTexts(rows), '\n') == Strip(text, MapBlanks)
  {
    var lines := Split(Strip(text, MapBlanks), '\n');
    var rows := seq(|lines|, i requires 0 <= i < |lines| => Split(lines[i], '\t'));
    forall i, j | 0 <= i < |rows| && 0 <= j < |rows[i]|
      ensures '\t' !in rows[i][j] && '\n' !in rows[i][j]
    {
      JoinKeeps(rows[i], '\t', j);
    }
    assert RowTexts(rows) == lines;
    rows
  }

  /** No cell holds a tab or a newline. */
  predicate Clean(grid: seq<seq<string>>) {
    forall i, j :: 0 <= i < |grid| && 0 <= j < |grid[i]| ==> '\t' !in grid[i][j] && '\n' !in grid[i][j]
  }

  /** The starting list, `[""] * 12*8`. */
  function Blank(): (labels: seq<string>)
    ensures |labels| == Wells
    ensures forall k :: 0 <= k < Wells ==> labels[k] == ""
  {
    seq(Wells, _ => "")
  }

  /** Line `i` of the map fits: its last cell lands below index 96. */
  predicate RowFits(rows: seq<seq<string>>, i: nat)
    requires i < |rows|
  {
    |rows[i]| == 0 || i * Columns + |rows[i]| <= Wells
  }

  /** Every line fits, so flattening does not raise. */
  predicate Fits(rows: seq<seq<string>>) {
    forall i :: 0 <= i < |rows| ==> RowFits(rows, i)
  }

  /** Reference meaning of the flattened list: the label at index `k` is the
      cell written there last in row-major order, or `""` if nothing was.
      For a fixed index, a later line always writes after an earlier one. */
  function Placed(rows: seq<seq<string>>, k: nat): string
  {
    if |rows| == 0 then ""
    else
      var i := |rows| - 1;
      if i * Columns <= k < i * Columns + |rows[i]| then rows[i][k - i * Columns]
      else Placed(rows[..i], k)
  }

  /** `e` is the first write of `rows` in row-major order whose index is out
      of range. */
  predicate FirstOverflow(rows: seq<seq<string>>, e: GridError)
  {
    && e.row < |rows|
    && e.col < |rows[e.row]|
    && e.row * Columns + e.col >= Wells
    && (e.col == 0 || e.row * Columns + e.col == Wells)
    && forall i :: 0 <= i < e.row ==> RowFits(rows, i)
  }

  /** The inner loop: write cells `j..` of line `i` into `labels`. */
  function WriteRow(labels: seq<string>, i: nat, cells: seq<string>, j: nat): (r: Result<seq<string>, GridError>)
    requires j <= |cells|
    ensures r.Ok? <==> j == |cells| || i * Columns + |cells| <= |labels|
    ensures r.Ok? ==> |r.value| == |labels|
    ensures r.Ok? ==> forall k :: 0 <= k < |labels| ==>
      r.value[k] == (if i * Columns + j <= k < i * Columns + |cells| then cells[k - i * Columns] else labels[k])
    ensures r.Err? ==> r.error.row == i && j <= r.error.col < |cells| && i * Columns + r.error.col >= |labels|
    ensures r.Err? ==> r.error.col == j || i * Columns + r.error.col == |labels|
    decreases |cells| - j
  {
    if j == |cells| then Ok(labels)
    else if i * Columns + j >= |labels| then Err(CellOutOfRange(i, j))
    else WriteRow(labels[i * Columns + j := cells[j]], i, cells, j + 1)
  }

  /** The outer loop: write lines `i..` of the map into `labels`, which
      already holds what lines `..i` wrote. */
  function WriteRows(labels: seq<string>, rows: seq<seq<string>>, i: nat): (r: Result<seq<string>, GridError>)
    requires i <= |rows|
    requires |labels| == Wells
    requires forall k :: 0 <= k < Wells ==> labels[k] == Placed(rows[..i], k)
    ensures r.Ok? <==> forall i' :: i <= i' < |rows| ==> RowFits(rows, i')
    ensures r.Ok? ==> |r.value| == Wells && forall k :: 0 <= k < Wells ==> r.value[k] == Placed(rows, k)
    ensures r.Err? ==> i <= r.error.row && FirstOverflowFrom(rows, i, r.error)
    decreases |rows| - i
  {
    if i == |rows| then
      assert rows[..i] == rows;
      Ok(labels)
    else
      match WriteRow(labels, i, rows[i], 0)
      case Err(e) =>
        assert !RowFits(rows, i);
        Err(e)
      case Ok(next) =>
        assert rows[..i + 1][..i] == rows[..i];
        WriteRows(next, rows, i + 1)
  }

  /** `FirstOverflow` restricted to the lines from `i` on. */
  predicate FirstOverflowFrom(rows: seq<seq<string>>, i: nat, e: GridError)
  {
    && e.row < |rows|
    && e.col < |rows[e.row]|
    && e.row * Columns + e.col >= Wells
    && (e.col == 0 || e.row * Columns + e.col == Wells)
    && forall i' :: i <= i' < e.row ==> RowFits(rows, i')
  }

  /** The flattening loops over already split lines. */
  function FlattenRows(rows: seq<seq<string>>): (r: Result<seq<string>, GridError>)
    ensures r.Ok? <==> Fits(rows)
    ensures r.Ok? ==> |r.value| == Wells
    ensures r.Ok? ==> forall k :: 0 <= k < Wells ==> r.value[k] == Placed(rows, k)
    ensures r.Err? ==> FirstOverflow(rows, r.error)
  {
    WriteRows(Blank(), rows, 0)
  }

  /** The flattener at lines 105-108 and 137-140 of the protocol. */
  function Flatten(text: string): (r: Result<seq<string>, GridError>)
    ensures r.Ok? <==> Fits(Cells(text))
    ensures r.Ok? ==> |r.value| == Wells
    ensures r.Ok? ==> forall k :: 0 <= k < Wells ==> r.value[k] == Placed(Cells(text), k)
    ensures r.Err? ==> FirstOverflow(Cells(text), r.error)
  {
    FlattenRows(Cells(text))
  }

  /** A map no line of which is longer than 12 cells. */
  predicate Regular(rows: seq<seq<string>>) {
    |rows| <= Rows && forall i :: 0 <= i < |rows| ==> |rows[i]| <= Columns
  }

  /** Cell `(r, c)` of the map, or `""` where the map has no such cell. */
  function CellAt(rows: seq<seq<string>>, r: nat, c: nat): string {
    if r < |rows| && c < |rows[r]| then rows[r][c] else ""
  }

  /** When no line exceeds 12 cells, nothing spills: index `r * 12 + c`
      holds exactly cell `(r, c)`. */
  lemma {:induction false} PlacedWithoutSpill(rows: seq<seq<string>>, r: nat, c: nat)
    requires forall i :: 0 <= i < |rows| ==> |rows[i]| <= Columns
    requires c < Columns
    ensures Placed(rows, r * Columns + c) == CellAt(rows, r, c)
  {
    if |rows| > 0 {
      var i := |rows| - 1;
      var k := r * Columns + c;
      assert r < i ==> r * Columns + Columns <= i * Columns;
      assert r > i ==> i * Columns + Columns <= r * Columns;
      if i * Columns <= k < i * Columns + |rows[i]| {
        assert r == i;
      } else {
        PlacedWithoutSpill(rows[..i], r, c);
        if r == i {
          assert c >= |rows[i]|;
        }
      }
    }
  }

  /** For a map of at most 8 lines of at most 12 cells, flattening succeeds
      with 96 entries, entry `k` is the cell at row `k / 12`, column
      `k % 12`, and every position the map does not cover is `""`. */
  lemma RegularFlatten(rows: seq<seq<string>>)
    requires Regular(rows)
    ensures FlattenRows(rows).Ok?
    ensures |FlattenRows(rows).value| == Wells
    ensures forall k :: 0 <= k < Wells ==>
      FlattenRows(rows).value[k] == CellAt(rows, k / Columns, k % Columns)
  {
    forall i | 0 <= i < |rows|
      ensures RowFits(rows, i)
    {
      assert i * Columns + |rows[i]| <= (Rows - 1) * Columns + Columns;
    }
    forall k | 0 <= k < Wells
      ensures FlattenRows(rows).value[k] == CellAt(rows, k / Columns, k % Columns)
    {
      PlacedWithoutSpill(rows, k / Columns, k % Columns);
    }
  }

  /** The same for a map given as text. */
  lemma RegularMapFlatten(text: string)
    requires Regular(Cells(text))
    ensures Flatten(text).Ok? && |Flatten(text).value| == Wells
    ensures forall k :: 0 <= k < Wells ==>
      Flatten(text).value[k] == CellAt(Cells(text), k / Columns, k % Columns)
  {
    RegularFlatten(Cells(text));
  }

  /** The flattened labels of a map text that reads as `grid`, a grid
      that fits the plate. */
  lemma RegularMapLabels(text: string, grid: seq<seq<string>>) returns (labels: seq<string>)
    requires Cells(text) == grid && Regular(grid)
    ensures Flatten(text) == Ok(labels) && |labels| == Wells
    ensures forall k :: 0 <= k < Wells ==> labels[k] == CellAt(grid, k / Columns, k % Columns)
  {
    RegularMapFlatten(text);
    labels := Flatten(text).value;
  }

  /** A 13-cell first line writes its last cell at index 12, the first slot
      of line 1; a second line then overwrites it, and index 11 keeps the
      first line's twelfth cell. */
  lemma OverlongRowSpills(first: seq<string>, second: seq<string>)
    requires |first| == Columns + 1 && 1 <= |second| <= Columns
    ensures FlattenRows([first]).Ok? && FlattenRows([first]).value[12] == first[12]
    ensures FlattenRows([first, second]).Ok?
    ensures FlattenRows([first, second]).value[12] == second[0]
    ensures FlattenRows([first, second]).value[11] == first[11]
  {
    assert Fits([first]) by {
      assert RowFits([first], 0);
    }
    assert Fits([first, second]) by {
      assert RowFits([first, second], 0);
      assert RowFits([first, second], 1);
    }
    assert [first, second][..1] == [first];
    assert Placed([first, second], 11) == Placed([first], 11);
  }

  /** A ninth line writes at index 96 and raises, even if it is empty. */
  lemma NinthLineOverflows(rows: seq<seq<string>>)
    requires |rows| == Rows + 1 && Regular(rows[..Rows]) && |rows[Rows]| >= 1
    ensures FlattenRows(rows) == Err(CellOutOfRange(Rows, 0))
  {
    assert !RowFits(rows, Rows);
    forall i | 0 <= i < Rows
      ensures RowFits(rows, i)
    {
      assert rows[..Rows][i] == rows[i];
      assert i * Columns + |rows[i]| <= (Rows - 1) * Columns + Columns;
    }
  }

  /** The lines of a laid-out map: each row's cells separated by tabs. */
  function RowTexts(grid: seq<seq<string>>): seq<string> {
    seq(|grid|, i requires 0 <= i < |grid| => Join(grid[i], '\t'))
  }

  /** The text of a map laid out as in the protocol file: a leading
      newline, one line per row with its cells separated by tabs, and a
      trailing newline. */
  function MapText(grid: seq<seq<string>>): string {
    "\n" + Join(RowTexts(grid), '\n') + "\n"
  }

  /** A grid that `MapText` spells unambiguously: no cell holds a tab or a
      newline, and the laid-out lines do not begin or end in a blank that
      `strip` would remove. Tabs are not blanks, so a first row may begin,
      and a last row end, with empty cells. */
  predicate Spellable(grid: seq<seq<string>>) {
    && |grid| >= 1
    && (forall i :: 0 <= i < |grid| ==> |grid[i]| >= 1)
    && Clean(grid)
    && var body := Join(RowTexts(grid), '\n');
       body == [] || (body[0] !in MapBlanks && body[|body| - 1] !in MapBlanks)
  }

  /** Round trip: reading the cells back out of a laid-out map gives the
      grid it was laid out from. */
  lemma MapTextCells(grid: seq<seq<string>>)
    requires Spellable(grid)
    ensures Cells(MapText(grid)) == grid
  {
    var lines := RowTexts(grid);
    RowTextsSplit(grid);
    MapTextStrip(grid);
    SplitJoin(lines, '\n');
    assert Split(Strip(MapText(grid), MapBlanks), '\n') == lines;
  }

  /** Each line of a laid-out map holds no newline and splits back into
      its row. */
  lemma RowTextsSplit(grid: seq<seq<string>>)
    requires forall i :: 0 <= i < |grid| ==> |grid[i]| >= 1
    requires Clean(grid)
    ensures forall i :: 0 <= i < |grid| ==> '\n' !in RowTexts(grid)[i] && Split(RowTexts(grid)[i], '\t') == grid[i]
  {
    var lines := RowTexts(grid);
    forall i | 0 <= i < |grid|
      ensures '\n' !in lines[i]
      ensures Split(lines[i], '\t') == grid[i]
    {
      JoinAvoids(grid[i], '\t', '\n');
      SplitJoin(grid[i], '\t');
    }
  }

  /** `strip` removes exactly the leading and trailing newline. */
  lemma MapTextStrip(grid: seq<seq<string>>)
    requires Spellable(grid)
    ensures Strip(MapText(grid), MapBlanks) == Join(RowTexts(grid), '\n')
  {
    StripExact("\n", Join(RowTexts(grid), '\n'), "\n", MapBlanks);
  }

  /** Tabs survive `strip`: a map whose first line begins with empty cells
      reads back with those cells in place, so its labels keep their
      columns. */
  lemma LeadingEmptyCellsKept(grid: seq<seq<string>>, n: nat)
    requires |grid| >= 1 && (forall i :: 0 <= i < |grid| ==> |grid[i]| >= 1) && Clean(grid)
    requires 1 <= n < |grid[0]| && forall j :: 0 <= j < n ==> grid[0][j] == ""
    requires var last := grid[|grid| - 1];
      |last[|last| - 1]| >= 1 && last[|last| - 1][|last[|last| - 1]| - 1] !in MapBlanks
    ensures Cells(MapText(grid)) == grid
    ensures forall j :: 0 <= j < n ==> Cells(MapText(grid))[0][j] == ""
  {
    var lines := RowTexts(grid);
    var last := grid[|grid| - 1];
    JoinFirstEmpty(grid[0], '\t');
    JoinFirst(lines, '\n');
    JoinLast(last, '\t');
    JoinLast(lines, '\n');
    MapTextCells(grid);
  }

  /** The map `"\n\tA\n"` keeps its empty first cell: `A` stays in
      column 2. */
  lemma LeadingTabKept()
    ensures Cells("\n\tA\n") == [["", "A"]]
    ensures Flatten("\n\tA\n").Ok? && Flatten("\n\tA\n").value[0] == "" && Flatten("\n\tA\n").value[1] == "A"
  {
    var grid := [["", "A"]];
    assert Clean(grid);
    LeadingEmptyCellsKept(grid, 1);
    assert MapText(grid) == "\n\tA\n";
    RegularMapFlatten("\n\tA\n");
  }

  /** A grid whose first cell starts, and whose last cell ends, with a
      character `strip` keeps is spellable. */
  lemma SpellableByEnds(grid: seq<seq<string>>)
    requires |grid| >= 1 && (forall i :: 0 <= i < |grid| ==> |grid[i]| >= 1) && Clean(grid)
    requires |grid[0][0]| >= 1 && grid[0][0][0] !in MapBlanks
    requires var last := grid[|grid| - 1];
      |last[|last| - 1]| >= 1 && last[|last| - 1][|last[|last| - 1]| - 1] !in MapBlanks
    ensures Spellable(grid)
  {
    var lines := RowTexts(grid);
    JoinFirst(grid[0], '\t');
    JoinLast(grid[|grid| - 1], '\t');
    JoinFirst(lines, '\n');
    JoinLast(lines, '\n');
  }

  /** A first row that begins with an empty cell begins with a tab. */
  lemma JoinFirstEmpty(cells: seq<string>, sep: char)
    requires |cells| >= 2 && cells[0] == ""
    ensures |Join(cells, sep)| >= 1 && Join(cells, sep)[0] == sep
  {
  }
}
