/** The trace matrix as text: rows printed as table lines among any other lines, and read back
    by the row patterns of the checker. A cell survives the trip when it is trimmed and holds no
    bar, which identifiers, statuses and lists of children always are; the two main results are
    that a document reads back as its rows, and that one the builder prints passes the check. */
module TraceDocument {
  import opened Wrappers
  import opened Sequences
  import opened Assembly
  import opened TraceMatrix

  // ---- Lines ---------------------------------------------------------------------------------

  /** L<level>-<letters>-<digits> */
  predicate IsId(level: char, id: string) {
    && |id| >= 6 && id[0] == 'L' && id[1] == level && id[2] == '-'
    && exists k :: 4 <= k < |id| - 1 && DashAt(id, k)
  }

  predicate DashAt(id: string, k: nat)
    requires 4 <= k < |id| - 1
  {
    && id[k] == '-'
    && (forall i :: 3 <= i < k ==> 'A' <= id[i] <= 'Z')
    && (forall i :: k < i < |id| ==> '0' <= id[i] <= '9')
  }

  function StatusText(s: Status): string {
    match s
    case Implemented => "Implemented"
    case Partial => "Partially Implemented"
    case Draft => "Draft"
    case Verified => "Verified"
  }

  function ParseStatus(text: string): Option<Status> {
    if text == "Implemented" then Some(Implemented)
    else if text == "Partially Implemented" then Some(Partial)
    else if text == "Draft" then Some(Draft)
    else if text == "Verified" then Some(Verified)
    else None
  }

  /** A line of the document: a level-1 row, a level-2 row with its two middle columns, or
      anything else. */
  datatype Line =
    | L1Line(row: L1Row)
    | L2Line(row2: L2Row, children: string, artifacts: string)
    | Other(text: string)

  function Cell(s: string): string {
    " " + s + " "
  }

  /** | a | b | c | */
  function RowText(cells: seq<string>): string {
    if cells == [] then "|" else "|" + Cell(cells[0]) + RowText(cells[1..])
  }

  function Text(line: Line): string {
    match line
    case L1Line(row) => RowText([row.id, row.children, StatusText(row.status)])
    case L2Line(row, children, artifacts) => RowText([row.id, children, artifacts, StatusText(row.status)])
    case Other(text) => text
  }

  // ---- Reading -------------------------------------------------------------------------------

  /** White space on both sides, as the patterns ask of every cell. */
  predicate Padded(part: string) {
    |part| >= 2 && IsSpace(part[0]) && IsSpace(part[|part| - 1])
  }

  /** The cells of a table line with `n` columns. */
  function CellsOf(text: string, n: nat): Option<seq<string>> {
    var parts := Split(text, '|');
    if && |parts| == n + 2 && parts[0] == "" && Strip(parts[n + 1]) == ""
       && forall i :: 1 <= i <= n ==> Padded(parts[i])
    then Some(seq(n, i requires 0 <= i < n => Strip(parts[i + 1])))
    else None
  }

  function ParseL1Line(text: string): Option<L1Row> {
    var cells := CellsOf(text, 3);
    if cells.Some? && |cells.value| == 3 && IsId('1', cells.value[0]) && ParseStatus(cells.value[2]).Some? then
      Some(L1Row(cells.value[0], cells.value[1], ParseStatus(cells.value[2]).value))
    else None
  }

  function ParseL2Line(text: string): Option<L2Row> {
    var cells := CellsOf(text, 4);
    if cells.Some? && |cells.value| == 4 && IsId('2', cells.value[0]) && ParseStatus(cells.value[3]).Some? then
      Some(L2Row(cells.value[0], ParseStatus(cells.value[3]).value))
    else None
  }

  function L1Reader(): string -> Option<L1Row> {
    (text: string) => ParseL1Line(text)
  }

  function L2Reader(): string -> Option<L2Row> {
    (text: string) => ParseL2Line(text)
  }

  function ParseDocument(texts: seq<string>): Matrix {
    Matrix(Collect(texts, L1Reader()), Collect(texts, L2Reader()))
  }

  // ---- Round trip ----------------------------------------------------------------------------

  predicate Trimmed(s: string) {
    s == "" || (!IsSpace(s[0]) && !IsSpace(s[|s| - 1]))
  }

  /** What a printed cell may hold. */
  predicate CellText(s: string) {
    '|' !in s && Trimmed(s)
  }

  lemma {:induction false} StripRightSpaces(s: string)
    requires s != "" && !IsSpace(s[|s| - 1])
    ensures StripRight(s) == s && StripRight(s + " ") == s
  {
    assert (s + " ")[..|s|] == s;
  }

  lemma StripCell(s: string)
    requires Trimmed(s)
    ensures Strip(Cell(s)) == s && Padded(Cell(s))
  {
    var cell := Cell(s);
    assert cell[1..] == s + " ";
    assert StripLeft(cell) == StripLeft(s + " ");
    if s == "" {
      assert s + " " == " ";
      assert " "[1..] == "";
      assert StripLeft(" ") == StripLeft("") == "";
    } else {
      assert (s + " ")[0] == s[0];
      StripRightSpaces(s);
    }
  }

  /** The pieces of a printed row. */
  function Parts(cells: seq<string>): seq<string> {
    if cells == [] then [""] else [Cell(cells[0])] + Parts(cells[1..])
  }

  lemma {:induction false} RowSplits(cells: seq<string>)
    requires forall i :: 0 <= i < |cells| ==> '|' !in cells[i]
    ensures Split(RowText(cells), '|') == [""] + Parts(cells)
  {
    if cells == [] {
      assert "|"[1..] == "";
      assert Split("|", '|') == [""] + Split("", '|');
    } else {
      var rest := RowText(cells[1..]);
      RowSplits(cells[1..]);
      var tail := Cell(cells[0]) + rest;
      SplitPrefix(Cell(cells[0]), rest, '|');
      assert Cell(cells[0]) + "" == Cell(cells[0]);
      assert Split(tail, '|') == [Cell(cells[0])] + Parts(cells[1..]);
      assert RowText(cells) == "|" + tail;
      assert ("|" + tail)[1..] == tail;
    }
  }

  lemma {:induction false} PartsAre(cells: seq<string>)
    ensures var parts := Parts(cells);
            && |parts| == |cells| + 1 && parts[|cells|] == ""
            && forall i :: 0 <= i < |cells| ==> parts[i] == Cell(cells[i])
  {
    if cells != [] {
      PartsAre(cells[1..]);
    }
  }

  /** A printed row has exactly its own cells. */
  lemma CellsRoundTrip(cells: seq<string>, n: nat)
    requires forall i :: 0 <= i < |cells| ==> CellText(cells[i])
    ensures CellsOf(RowText(cells), n) == if n == |cells| then Some(cells) else None
  {
    var parts := Split(RowText(cells), '|');
    SplitParts(cells, parts);
    if n == |cells| {
      assert seq(n, i requires 0 <= i < n => Strip(parts[i + 1])) == cells;
    }
  }

  lemma SplitParts(cells: seq<string>, parts: seq<string>)
    requires forall i :: 0 <= i < |cells| ==> CellText(cells[i])
    requires parts == Split(RowText(cells), '|')
    ensures |parts| == |cells| + 2 && parts[0] == "" && Strip(parts[|cells| + 1]) == ""
    ensures forall i :: 1 <= i <= |cells| ==> Padded(parts[i]) && Strip(parts[i]) == cells[i - 1]
  {
    RowSplits(cells);
    PartsAre(cells);
    assert parts == [""] + Parts(cells);
    forall i | 1 <= i <= |cells|
      ensures Padded(parts[i]) && Strip(parts[i]) == cells[i - 1]
    {
      assert parts[i] == Cell(cells[i - 1]);
      StripCell(cells[i - 1]);
    }
  }

  lemma StatusRoundTrip(s: Status)
    ensures ParseStatus(StatusText(s)) == Some(s) && CellText(StatusText(s))
  {
  }

  lemma IdIsCellText(level: char, id: string)
    requires IsId(level, id) && (level == '1' || level == '2')
    ensures CellText(id) && RequirementId(id)
  {
    var k :| 4 <= k < |id| - 1 && DashAt(id, k);
    forall i | 0 <= i < |id|
      ensures id[i] != ',' && id[i] != '|' && !IsSpace(id[i])
    {
      assert i < 3 || i < k || i == k || i > k;
    }
  }

  /** A row line prints a requirement's row; any other line reads as no row. */
  predicate WellFormed(line: Line) {
    match line
    case L1Line(row) => IsId('1', row.id) && CellText(row.children)
    case L2Line(row, children, artifacts) => IsId('2', row.id) && CellText(children) && CellText(artifacts)
    case Other(text) => ParseL1Line(text).None? && ParseL2Line(text).None?
  }

  function L1Of(line: Line): Option<L1Row> {
    if line.L1Line? then Some(line.row) else None
  }

  function L2Of(line: Line): Option<L2Row> {
    if line.L2Line? then Some(line.row2) else None
  }

  lemma LineRoundTrip(line: Line)
    requires WellFormed(line)
    ensures ParseL1Line(Text(line)) == L1Of(line) && ParseL2Line(Text(line)) == L2Of(line)
  {
    match line
    case L1Line(row) =>
      IdIsCellText('1', row.id);
      StatusRoundTrip(row.status);
      CellsRoundTrip([row.id, row.children, StatusText(row.status)], 3);
      CellsRoundTrip([row.id, row.children, StatusText(row.status)], 4);
    case L2Line(row, children, artifacts) =>
      IdIsCellText('2', row.id);
      StatusRoundTrip(row.status);
      CellsRoundTrip([row.id, children, artifacts, StatusText(row.status)], 3);
      CellsRoundTrip([row.id, children, artifacts, StatusText(row.status)], 4);
    case Other(_) =>
  }

  function Texts(lines: seq<Line>): seq<string> {
    if lines == [] then [] else Texts(lines[..|lines| - 1]) + [Text(lines[|lines| - 1])]
  }

  function L1Rows(lines: seq<Line>): seq<L1Row> {
    if lines == [] then []
    else L1Rows(lines[..|lines| - 1]) + if lines[|lines| - 1].L1Line? then [lines[|lines| - 1].row] else []
  }

  function L2Rows(lines: seq<Line>): seq<L2Row> {
    if lines == [] then []
    else L2Rows(lines[..|lines| - 1]) + if lines[|lines| - 1].L2Line? then [lines[|lines| - 1].row2] else []
  }

  /** Reading a printed document gives back its rows, whatever stands between them. */
  lemma {:induction false} DocumentRoundTrip(lines: seq<Line>)
    requires forall i :: 0 <= i < |lines| ==> WellFormed(lines[i])
    ensures ParseDocument(Texts(lines)) == Matrix(L1Rows(lines), L2Rows(lines))
  {
    if lines != [] {
      var n := |lines| - 1;
      DocumentRoundTrip(lines[..n]);
      LineRoundTrip(lines[n]);
      CollectAppend(Texts(lines[..n]), Text(lines[n]), L1Reader());
      CollectAppend(Texts(lines[..n]), Text(lines[n]), L2Reader());
    }
  }

  // ---- The builder's document passes -----------------------------------------------------------

  /** The documents' ids have the form their parsers look for. */
  ghost predicate IdsParsed(docs: Docs) {
    && (forall id :: id in docs.l1 ==> IsId('1', id))
    && (forall entry :: entry in docs.l2Parent ==> IsId('2', entry.0))
  }

  lemma {:induction false} JoinIsCellText(ids: seq<string>)
    requires ids != [] && RequirementIds(ids)
    ensures '|' !in Join(ids) && Join(ids) != ""
    ensures !IsSpace(Join(ids)[0]) && !IsSpace(Join(ids)[|Join(ids)| - 1])
  {
    if |ids| > 1 {
      JoinIsCellText(ids[1..]);
      var rest := Join(ids[1..]);
      assert Join(ids) == ids[0] + ", " + rest;
      assert Join(ids)[|Join(ids)| - 1] == rest[|rest| - 1];
    }
  }

  lemma ChildrenCell(docs: Docs, before: KeyOrder, id: string)
    requires IdsParsed(docs)
    ensures CellText(PrintChildren(L1Children(docs, before, id)))
    ensures forall entry :: entry in docs.l2Parent ==> RequirementId(entry.0)
  {
    forall entry | entry in docs.l2Parent
      ensures RequirementId(entry.0)
    {
      IdIsCellText('2', entry.0);
    }
    ChildrenAreIds(docs, before, id);
    var children := L1Children(docs, before, id);
    if children != [] {
      JoinIsCellText(children);
    }
  }

  /** A line as the builder prints it: the row of a requirement; a level-2 row's middle columns
      hold no bar; or a line that is no row. */
  ghost predicate Printed(docs: Docs, before: KeyOrder, line: Line) {
    match line
    case L1Line(row) =>
      && row.id in docs.l1 && row.children == PrintChildren(L1Children(docs, before, row.id))
      && row.status == L1Status(docs, before, row.id)
    case L2Line(row, children, artifacts) =>
      && (exists parent :: (row.id, parent) in docs.l2Parent) && row.status == L2Status(docs, before, row.id)
      && CellText(children) && CellText(artifacts)
    case Other(text) => ParseL1Line(text).None? && ParseL2Line(text).None?
  }

  lemma PrintedWellFormed(docs: Docs, before: KeyOrder, line: Line)
    requires IdsParsed(docs) && Printed(docs, before, line)
    ensures WellFormed(line)
  {
    if line.L1Line? {
      ChildrenCell(docs, before, line.row.id);
    }
  }

  lemma {:induction false} PrintedEmitted(docs: Docs, before: KeyOrder, lines: seq<Line>)
    requires forall i :: 0 <= i < |lines| ==> Printed(docs, before, lines[i])
    ensures Emitted(docs, before, Matrix(L1Rows(lines), L2Rows(lines)))
  {
    if lines != [] {
      PrintedEmitted(docs, before, lines[..|lines| - 1]);
      assert Printed(docs, before, lines[|lines| - 1]);
    }
  }

  /** The checker, reading the text of any document the builder prints, reports nothing. */
  lemma BuiltDocumentPasses(docs: Docs, before: KeyOrder, lines: seq<Line>)
    requires IdsParsed(docs) && forall i :: 0 <= i < |lines| ==> Printed(docs, before, lines[i])
    ensures var m := ParseDocument(Texts(lines));
            && m == Matrix(L1Rows(lines), L2Rows(lines))
            && L2AllConsistent(docs, ParseL2(m.l2)) && L1AllConsistent(docs, ParseL1(m.l1), ParseL2(m.l2))
  {
    forall i | 0 <= i < |lines|
      ensures WellFormed(lines[i])
    {
      PrintedWellFormed(docs, before, lines[i]);
    }
    DocumentRoundTrip(lines);
    PrintedEmitted(docs, before, lines);
    ChildrenCell(docs, before, "");
    BuiltIsConsistent(docs, before, Matrix(L1Rows(lines), L2Rows(lines)));
  }
}
