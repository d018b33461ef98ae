/** The document service's table renderer: a header, rows one below the other, and a new
    page with a new header whenever the next row would not fit. Coordinates are points
    from the top of the page. */
module Paginator {
  import opened Sequences
  import Csv

  const ROW_HEIGHT := 18.0
  const HEADER_HEIGHT := 20.0
  const TOP_MARGIN := 50.0
  /** A Letter page less its bottom margin and ten points of air. */
  const PAGE_BOTTOM := 792.0 - 60.0 - 10.0

  type Cells = seq<string>

  datatype Mark =
    | Header(page: nat, y: real)
    | Row(page: nat, y: real, shaded: bool, cells: Cells)
    | Border(page: nat, y: real, height: real)

  datatype Segment = Segment(startY: real, rowCount: nat)

  // ---- What a table should look like ----

  /** A page's share of the table: where its header starts, and its rows. */
  datatype Part = Part(top: real, rows: seq<Cells>)

  /** How many rows fit below a header at `top`. */
  function Fit(top: real): nat {
    var n := ((PAGE_BOTTOM - HEADER_HEIGHT - top) / ROW_HEIGHT).Floor;
    if n < 0 then 0 else n
  }

  /** Each page takes as many rows as fit. */
  function Layout(top: real, rows: seq<Cells>): (parts: seq<Part>)
    ensures parts != []
    decreases |rows|, if top == TOP_MARGIN then 0 else 1
  {
    FullPage();
    var n := Fit(top);
    if |rows| <= n then [Part(top, rows)]
    else [Part(top, rows[..n])] + Layout(TOP_MARGIN, rows[n..])
  }

  function RowY(top: real, k: nat): real {
    top + HEADER_HEIGHT + ROW_HEIGHT * k as real
  }

  function DrawnRows(page: nat, top: real, rows: seq<Cells>): (marks: seq<Mark>)
    ensures |marks| == |rows|
  {
    seq(|rows|, k requires 0 <= k < |rows| => Row(page, RowY(top, k), k % 2 == 0, rows[k]))
  }

  function DrawnPart(page: nat, part: Part): seq<Mark> {
    [Header(page, part.top)] + DrawnRows(page, part.top, part.rows)
    + [Border(page, part.top, HEADER_HEIGHT + |part.rows| as real * ROW_HEIGHT)]
  }

  function Drawn(parts: seq<Part>): seq<Mark> {
    if parts == [] then [] else Drawn(parts[..|parts| - 1]) + DrawnPart(|parts| - 1, parts[|parts| - 1])
  }

  function Segments(parts: seq<Part>): seq<Segment> {
    seq(|parts|, i requires 0 <= i < |parts| => Segment(parts[i].top, |parts[i].rows|))
  }

  lemma FullPage()
    ensures Fit(TOP_MARGIN) == 36
  {
    assert (PAGE_BOTTOM - HEADER_HEIGHT - TOP_MARGIN) / ROW_HEIGHT == 652.0 / 18.0;
  }

  /** In points: a header is twenty high and a row eighteen, a page starts at fifty and is
      full at seven hundred and twenty-two. */
  lemma PageGeometry(top: real, k: nat)
    ensures RowY(top, 0) == top + 20.0 && RowY(top, k + 1) == RowY(top, k) + 18.0
    ensures TOP_MARGIN == 50.0 && PAGE_BOTTOM == 722.0
  {
  }

  /** Row k ends above the bottom of the page exactly when it is one of those that fit. */
  lemma FitIsMaximal(top: real, k: nat)
    ensures k < Fit(top) <==> RowY(top, k) + ROW_HEIGHT <= PAGE_BOTTOM
  {
    var space := PAGE_BOTTOM - HEADER_HEIGHT - top;
    var q := space / ROW_HEIGHT;
    assert q * ROW_HEIGHT == space;
    assert k < q.Floor <==> (k + 1) as real <= q;
    assert (k + 1) as real <= q <==> (k + 1) as real * ROW_HEIGHT <= space;
  }

  // ---- The renderer ----

  /** Where the loop stands before row k: `done` are the pages it has left, and the open
      page starts at row `from`. */
  ghost predicate DrawnSoFar(startY: real, rows: seq<Cells>, k: nat, done: seq<Part>, from: nat, top: real,
                             marks: seq<Mark>, segments: seq<Segment>, currentY: real) {
    && from <= k <= |rows| && |segments| == |done| + 1
    && Layout(startY, rows) == done + Layout(top, rows[from..])
    && segments == Segments(done + [Part(top, rows[from..k])])
    && segments[|done|] == Segment(top, k - from)
    && marks == DrawnOpen(done, top, rows[from..k])
    && currentY == RowY(top, k - from) && k - from <= Fit(top)
  }

  /** Draws the layout; the text after the table starts twelve points below it. */
  method DrawTable(startY: real, rows: seq<Cells>) returns (marks: seq<Mark>, segments: seq<Segment>, endY: real)
    ensures marks == Drawn(Layout(startY, rows))
    ensures segments == Segments(Layout(startY, rows))
    ensures segments != [] && (var last := segments[|segments| - 1]; endY == RowY(last.startY, last.rowCount) + 12.0)
  {
    hide DrawnSoFar, Layout, Drawn, Segments, RowY;
    var tableTop := startY;
    marks := [Header(0, tableTop)];
    var currentY := tableTop + HEADER_HEIGHT;
    segments := [Segment(tableTop, 0)];
    ghost var done, from := [], 0;
    NothingDrawn(startY, rows);
    for k := 0 to |rows|
      invariant DrawnSoFar(startY, rows, k, done, from, tableTop, marks, segments, currentY)
      invariant |segments| == |done| + 1
    {
      if currentY + ROW_HEIGHT > PAGE_BOTTOM {
        var seg := segments[|segments| - 1];
        var segHeight := HEADER_HEIGHT + seg.rowCount as real * ROW_HEIGHT;
        PageTurned(startY, rows, k, done, from, tableTop, marks, segments, currentY);
        marks := marks + [Border(|segments| - 1, seg.startY, segHeight)];

        done, from := done + [Part(tableTop, rows[from..k])], k;
        tableTop := TOP_MARGIN;
        marks := marks + [Header(|segments|, tableTop)];
        currentY := tableTop + HEADER_HEIGHT;
        segments := segments + [Segment(tableTop, 0)];
      }
      var seg := segments[|segments| - 1];
      RowAdded(startY, rows, k, done, from, tableTop, marks, segments, currentY);
      marks := marks + [Row(|segments| - 1, currentY, seg.rowCount % 2 == 0, rows[k])];
      segments := segments[|segments| - 1 := seg.(rowCount := seg.rowCount + 1)];
      currentY := currentY + ROW_HEIGHT;
    }
    var lastSeg := segments[|segments| - 1];
    AllDrawn(startY, rows, done, from, tableTop, marks, segments, currentY);
    marks := marks + [Border(|segments| - 1, lastSeg.startY, HEADER_HEIGHT + lastSeg.rowCount as real * ROW_HEIGHT)];
    endY := currentY + 12.0;
  }

  lemma NothingDrawn(startY: real, rows: seq<Cells>)
    ensures DrawnSoFar(startY, rows, 0, [], 0, startY,
                       [Header(0, startY)], [Segment(startY, 0)], startY + HEADER_HEIGHT)
  {
    hide Layout, Fit, DrawnOpen;
    assert rows[0..] == rows && rows[0..0] == [];
    assert [] + Layout(startY, rows) == Layout(startY, rows);
    PageOpened([], startY);
  }

  lemma PageTurned(startY: real, rows: seq<Cells>, k: nat, done: seq<Part>, from: nat, top: real,
                   marks: seq<Mark>, segments: seq<Segment>, currentY: real)
    requires DrawnSoFar(startY, rows, k, done, from, top, marks, segments, currentY) && k < |rows|
    requires currentY + ROW_HEIGHT > PAGE_BOTTOM
    ensures var left := done + [Part(top, rows[from..k])];
            && segments[|done|] == Segment(top, k - from) && TOP_MARGIN + HEADER_HEIGHT + ROW_HEIGHT <= PAGE_BOTTOM
            && DrawnSoFar(startY, rows, k, left, k, TOP_MARGIN,
                          marks + [Border(|done|, top, HEADER_HEIGHT + (k - from) as real * ROW_HEIGHT)]
                          + [Header(|done| + 1, TOP_MARGIN)],
                          segments + [Segment(TOP_MARGIN, 0)], TOP_MARGIN + HEADER_HEIGHT)
  {
    hide Layout, Fit, DrawnOpen, Drawn, Segments;
    var left := done + [Part(top, rows[from..k])];
    FitIsMaximal(top, k - from);
    PageClosed(startY, rows, done, top, from, k);
    PartClosed(done, top, rows[from..k]);
    PageOpened(left, TOP_MARGIN);
    assert rows[k..k] == [];
  }

  lemma RowAdded(startY: real, rows: seq<Cells>, k: nat, done: seq<Part>, from: nat, top: real,
                 marks: seq<Mark>, segments: seq<Segment>, currentY: real)
    requires DrawnSoFar(startY, rows, k, done, from, top, marks, segments, currentY) && k < |rows|
    requires currentY + ROW_HEIGHT <= PAGE_BOTTOM
    ensures segments[|done|] == Segment(top, k - from)
    ensures DrawnSoFar(startY, rows, k + 1, done, from, top,
                       marks + [Row(|done|, currentY, (k - from) % 2 == 0, rows[k])],
                       segments[|done| := Segment(top, k - from + 1)], currentY + ROW_HEIGHT)
  {
    hide Layout, Fit, DrawnOpen, Segments;
    FitIsMaximal(top, k - from);
    RowDrawn(done, top, rows[from..k], rows[k]);
    assert rows[from..k] + [rows[k]] == rows[from..k + 1];
  }

  lemma AllDrawn(startY: real, rows: seq<Cells>, done: seq<Part>, from: nat, top: real,
                 marks: seq<Mark>, segments: seq<Segment>, currentY: real)
    requires DrawnSoFar(startY, rows, |rows|, done, from, top, marks, segments, currentY)
    ensures segments[|done|] == Segment(top, |rows| - from) && currentY == RowY(top, |rows| - from)
    ensures segments == Segments(Layout(startY, rows))
    ensures marks + [Border(|done|, top, HEADER_HEIGHT + (|rows| - from) as real * ROW_HEIGHT)]
         == Drawn(Layout(startY, rows))
  {
    assert rows[from..|rows|] == rows[from..];
    LastPart(top, rows[from..]);
    PartClosed(done, top, rows[from..]);
    hide Layout, Fit, DrawnOpen, Drawn, Segments;
  }

  lemma LastPart(top: real, rows: seq<Cells>)
    requires |rows| <= Fit(top)
    ensures Layout(top, rows) == [Part(top, rows)]
  {
  }

  /** The pages done so far and an unfinished one. */
  function DrawnOpen(done: seq<Part>, top: real, rows: seq<Cells>): seq<Mark> {
    Drawn(done) + ([Header(|done|, top)] + DrawnRows(|done|, top, rows))
  }

  lemma PartClosed(done: seq<Part>, top: real, rows: seq<Cells>)
    ensures Drawn(done + [Part(top, rows)])
         == DrawnOpen(done, top, rows) + [Border(|done|, top, HEADER_HEIGHT + |rows| as real * ROW_HEIGHT)]
  {
    hide Drawn, DrawnRows;
    DrawnSnoc(done, Part(top, rows));
    Associative(Drawn(done), [Header(|done|, top)] + DrawnRows(|done|, top, rows),
                [Border(|done|, top, HEADER_HEIGHT + |rows| as real * ROW_HEIGHT)]);
  }

  lemma DrawnSnoc(parts: seq<Part>, part: Part)
    ensures Drawn(parts + [part]) == Drawn(parts) + DrawnPart(|parts|, part)
  {
    assert (parts + [part])[..|parts|] == parts;
    hide DrawnPart;
  }

  lemma RowDrawn(done: seq<Part>, top: real, rows: seq<Cells>, cells: Cells)
    ensures DrawnOpen(done, top, rows + [cells])
         == DrawnOpen(done, top, rows) + [Row(|done|, RowY(top, |rows|), |rows| % 2 == 0, cells)]
    ensures Segments(done + [Part(top, rows + [cells])])
         == Segments(done + [Part(top, rows)])[|done| := Segment(top, |rows| + 1)]
  {
    var row := Row(|done|, RowY(top, |rows|), |rows| % 2 == 0, cells);
    assert DrawnRows(|done|, top, rows + [cells]) == DrawnRows(|done|, top, rows) + [row];
    hide DrawnRows;
    Associative([Header(|done|, top)], DrawnRows(|done|, top, rows), [row]);
    Associative(Drawn(done), [Header(|done|, top)] + DrawnRows(|done|, top, rows), [row]);
  }

  lemma PageClosed(startY: real, rows: seq<Cells>, done: seq<Part>, top: real, from: nat, k: nat)
    requires from <= k < |rows| && k - from == Fit(top)
    requires Layout(startY, rows) == done + Layout(top, rows[from..])
    ensures var part := Part(top, rows[from..k]);
            && Layout(startY, rows) == done + [part] + Layout(TOP_MARGIN, rows[k..])
  {
    var left := rows[from..];
    assert left[..k - from] == rows[from..k] && left[k - from..] == rows[k..];
    var part, rest := Part(top, rows[from..k]), Layout(TOP_MARGIN, rows[k..]);
    assert Layout(top, left) == [part] + rest;
    hide Layout, Fit;
    Associative(done, [part], rest);
  }

  lemma PageOpened(done: seq<Part>, top: real)
    ensures Segments(done + [Part(top, [])]) == Segments(done) + [Segment(top, 0)]
    ensures DrawnOpen(done, top, []) == Drawn(done) + [Header(|done|, top)]
  {
    hide Drawn, DrawnRows, Segments;
    NoRows(|done|, top);
    SegmentsSnoc(done, top);
    NothingAdded([Header(|done|, top)]);
  }

  lemma SegmentsSnoc(done: seq<Part>, top: real)
    ensures Segments(done + [Part(top, [])]) == Segments(done) + [Segment(top, 0)]
  {
  }

  lemma NoRows(page: nat, top: real)
    ensures DrawnRows(page, top, []) == []
  {
  }

  // ---- What the layout guarantees ----

  function RowsOf(parts: seq<Part>): seq<Cells> {
    if parts == [] then [] else parts[0].rows + RowsOf(parts[1..])
  }

  function RowCount(parts: seq<Part>): nat {
    if parts == [] then 0 else |parts[0].rows| + RowCount(parts[1..])
  }

  /** Pages split the rows in order, losing none; continuation pages start at the top
      margin, and all but the last of them hold thirty-six rows. */
  lemma {:induction false} LayoutSplits(top: real, rows: seq<Cells>)
    ensures var parts := Layout(top, rows);
            && RowsOf(parts) == rows && RowCount(parts) == |rows|
            && parts[0].top == top && |parts[0].rows| == (if |rows| <= Fit(top) then |rows| else Fit(top))
            && (forall p :: 0 < p < |parts| ==> parts[p].top == TOP_MARGIN && 0 < |parts[p].rows| <= 36)
            && (forall p :: 0 < p < |parts| - 1 ==> |parts[p].rows| == 36)
            && (forall p :: 0 <= p < |parts| - 1 ==> |parts[p].rows| == Fit(parts[p].top))
            && |parts| == 1 + if |rows| <= Fit(top) then 0 else (|rows| - Fit(top) + 35) / 36
    decreases |rows|, if top == TOP_MARGIN then 0 else 1
  {
    FullPage();
    var n := Fit(top);
    hide Fit;
    if |rows| <= n {
      assert RowsOf([Part(top, rows)]) == rows + RowsOf([]);
    } else {
      LayoutSplits(TOP_MARGIN, rows[n..]);
      var rest := Layout(TOP_MARGIN, rows[n..]);
      var parts := Layout(top, rows);
      assert parts[1..] == rest;
      assert rows == rows[..n] + rows[n..];
      OnePageMore(|rows| - n);
    }
  }

  lemma OnePageMore(left: nat)
    requires left > 0
    ensures (left + 35) / 36 == 1 + if left <= 36 then 0 else (left - 36 + 35) / 36
  {
  }

  function RowMarks(marks: seq<Mark>): seq<Cells> {
    if marks == [] then []
    else RowMarks(marks[..|marks| - 1]) + if marks[|marks| - 1].Row? then [marks[|marks| - 1].cells] else []
  }

  lemma {:induction false} RowMarksOfParts(a: seq<Mark>, b: seq<Mark>)
    ensures RowMarks(a + b) == RowMarks(a) + RowMarks(b)
  {
    if b == [] {
      assert a + b == a;
    } else {
      RowMarksOfParts(a, b[..|b| - 1]);
      assert (a + b)[..|a + b| - 1] == a + b[..|b| - 1];
    }
  }

  lemma {:induction false} RowMarksOfRows(page: nat, top: real, rows: seq<Cells>)
    ensures RowMarks(DrawnRows(page, top, rows)) == rows
  {
    if rows != [] {
      var front := rows[..|rows| - 1];
      RowMarksOfRows(page, top, front);
      assert DrawnRows(page, top, rows)[..|rows| - 1] == DrawnRows(page, top, front);
      assert rows == front + [rows[|rows| - 1]];
    }
  }

  lemma RowMarksOfPart(page: nat, part: Part)
    ensures RowMarks(DrawnPart(page, part)) == part.rows
  {
    var header, rows := [Header(page, part.top)], DrawnRows(page, part.top, part.rows);
    var border := [Border(page, part.top, HEADER_HEIGHT + |part.rows| as real * ROW_HEIGHT)];
    assert RowMarks(header) == [] && RowMarks(border) == [];
    RowMarksOfRows(page, part.top, part.rows);
    RowMarksOfParts(header, rows);
    RowMarksOfParts(header + rows, border);
  }

  lemma {:induction false} RowsOfSnoc(parts: seq<Part>, part: Part)
    ensures RowsOf(parts + [part]) == RowsOf(parts) + part.rows
  {
    if parts == [] {
      assert RowsOf([part]) == part.rows + RowsOf([]);
    } else {
      RowsOfSnoc(parts[1..], part);
      assert (parts + [part])[1..] == parts[1..] + [part];
    }
  }

  lemma {:induction false} DrawnRowMarks(parts: seq<Part>)
    ensures RowMarks(Drawn(parts)) == RowsOf(parts)
  {
    if parts != [] {
      var front, last := parts[..|parts| - 1], parts[|parts| - 1];
      DrawnRowMarks(front);
      RowMarksOfParts(Drawn(front), DrawnPart(|parts| - 1, last));
      RowMarksOfPart(|parts| - 1, last);
      RowsOfSnoc(front, last);
      assert parts == front + [last];
    }
  }

  /** Every row is drawn once and in order. */
  lemma EachRowOnce(startY: real, rows: seq<Cells>)
    ensures RowMarks(Drawn(Layout(startY, rows))) == rows
  {
    LayoutSplits(startY, rows);
    DrawnRowMarks(Layout(startY, rows));
  }

  /** The first mark of a page. */
  function FirstMark(parts: seq<Part>, page: nat): nat
    requires page <= |parts|
  {
    if page == 0 then 0 else FirstMark(parts, page - 1) + |parts[page - 1].rows| + 2
  }

  lemma {:induction false} FirstMarkOfFront(parts: seq<Part>, page: nat)
    requires page < |parts|
    ensures FirstMark(parts[..|parts| - 1], page) == FirstMark(parts, page)
  {
    if page > 0 {
      FirstMarkOfFront(parts, page - 1);
    }
  }

  /** The marks are each page's header, its rows and its border, page after page, and no
      others. */
  lemma {:induction false} MarksInOrder(parts: seq<Part>, page: nat, j: nat)
    requires page < |parts| && j < |parts[page].rows| + 2
    ensures |Drawn(parts)| == FirstMark(parts, |parts|) && FirstMark(parts, page) + j < |Drawn(parts)|
    ensures var m, part := Drawn(parts)[FirstMark(parts, page) + j], parts[page];
            m == if j == 0 then Header(page, part.top)
                 else if j <= |part.rows| then Row(page, RowY(part.top, j - 1), j % 2 == 1, part.rows[j - 1])
                 else Border(page, part.top, HEADER_HEIGHT + |part.rows| as real * ROW_HEIGHT)
  {
    hide DrawnPart, FirstMark, RowY;
    var n := |parts| - 1;
    FirstMarkOfFront(parts, page);
    DrawnCount(parts);
    DrawnCount(parts[..n]);
    PartMark(n, parts[n], if page == n then j else 0);
    if page < n {
      MarksInOrder(parts[..n], page, j);
    }
  }

  lemma PartMark(page: nat, part: Part, j: nat)
    requires j < |part.rows| + 2
    ensures |DrawnPart(page, part)| == |part.rows| + 2
    ensures DrawnPart(page, part)[j] ==
            if j == 0 then Header(page, part.top)
            else if j <= |part.rows| then Row(page, RowY(part.top, j - 1), j % 2 == 1, part.rows[j - 1])
            else Border(page, part.top, HEADER_HEIGHT + |part.rows| as real * ROW_HEIGHT)
  {
    hide RowY;
  }

  lemma {:induction false} DrawnCount(parts: seq<Part>)
    ensures |Drawn(parts)| == FirstMark(parts, |parts|)
  {
    if parts != [] {
      var n := |parts| - 1;
      DrawnCount(parts[..n]);
      FirstMarkOfFront(parts, n);
    }
  }

  /** A mark lies where its page's share of the table puts it. */
  predicate InPlace(m: Mark, parts: seq<Part>)
  {
    && m.page < |parts|
    && var part := parts[m.page];
       match m
       case Header(_, y) => y == part.top
       case Row(_, y, shaded, cells) =>
         exists k: nat :: k < |part.rows| && y == RowY(part.top, k) && cells == part.rows[k] && shaded == (k % 2 == 0)
       case Border(_, y, height) => y == part.top && y + height == RowY(part.top, |part.rows|)
  }

  lemma {:induction false} DrawnInPlace(parts: seq<Part>)
    ensures forall i :: 0 <= i < |Drawn(parts)| ==> InPlace(Drawn(parts)[i], parts)
  {
    if parts != [] {
      var n := |parts| - 1;
      DrawnInPlace(parts[..n]);
      PartInPlace(parts);
      forall i | 0 <= i < |Drawn(parts[..n])| ensures InPlace(Drawn(parts[..n])[i], parts) {
        Longer(Drawn(parts[..n])[i], parts);
      }
    }
  }

  lemma Longer(m: Mark, parts: seq<Part>)
    requires parts != [] && InPlace(m, parts[..|parts| - 1])
    ensures InPlace(m, parts)
  {
    assert parts[..|parts| - 1][m.page] == parts[m.page];
  }

  lemma PartInPlace(parts: seq<Part>)
    requires parts != []
    ensures var n := |parts| - 1;
            forall i :: 0 <= i < |DrawnPart(n, parts[n])| ==> InPlace(DrawnPart(n, parts[n])[i], parts)
  {
    var n := |parts| - 1;
    var marks := DrawnPart(n, parts[n]);
    forall i | 0 <= i < |marks| ensures InPlace(marks[i], parts) {
      if 0 < i < |marks| - 1 {
        var k: nat := i - 1;
        assert marks[i] == DrawnRows(n, parts[n].top, parts[n].rows)[k];
        assert marks[i].y == RowY(parts[n].top, k);
      }
    }
  }

  /** Every row lies wholly between its page's header and the bottom of the page, and
      every header but the first has room for a row below it. */
  lemma RowsStayOnPage(startY: real, rows: seq<Cells>, i: nat)
    requires i < |Drawn(Layout(startY, rows))|
    ensures var m, parts := Drawn(Layout(startY, rows))[i], Layout(startY, rows);
            && InPlace(m, parts)
            && (m.Row? ==> parts[m.page].top + HEADER_HEIGHT <= m.y && m.y + ROW_HEIGHT <= PAGE_BOTTOM)
            && (m.Header? && m.page > 0 ==> m.y == TOP_MARGIN && m.y + HEADER_HEIGHT + ROW_HEIGHT <= PAGE_BOTTOM)
            && (m.Border? && (m.page > 0 || startY + HEADER_HEIGHT <= PAGE_BOTTOM) ==> m.y + m.height <= PAGE_BOTTOM)
  {
    var parts := Layout(startY, rows);
    var m := Drawn(parts)[i];
    DrawnInPlace(parts);
    LayoutSplits(startY, rows);
    FullPage();
    var part := parts[m.page];
    hide Layout, Drawn, Fit;
    assert |part.rows| <= Fit(part.top);
    if m.Row? {
      var k: nat :| k < |part.rows| && m.y == RowY(part.top, k) && m.cells == part.rows[k] && m.shaded == (k % 2 == 0);
      FitIsMaximal(part.top, k);
    }
    if m.Border? && |part.rows| > 0 {
      FitIsMaximal(part.top, |part.rows| - 1);
    }
  }

  /** A page is left only when its next row would not have fitted. */
  lemma NoEarlyBreak(startY: real, rows: seq<Cells>, p: nat)
    requires p < |Layout(startY, rows)| - 1
    ensures var part := Layout(startY, rows)[p]; RowY(part.top, |part.rows|) + ROW_HEIGHT > PAGE_BOTTOM
  {
    LayoutSplits(startY, rows);
    var part := Layout(startY, rows)[p];
    FitIsMaximal(part.top, |part.rows|);
  }

  // ---- From the rows' text ----

  /** The rows a checked table draws: each has a cell for every header. */
  method ParseRows(headers: nat, rows: seq<string>) returns (parsed: seq<Cells>)
    requires forall r :: 0 <= r < |rows| ==> 1 + |Csv.Separators(rows[r])| == headers
    ensures |parsed| == |rows|
    ensures forall r :: 0 <= r < |rows| ==> parsed[r] == Csv.Columns(rows[r]) && |parsed[r]| == headers
  {
    parsed := [];
    for r := 0 to |rows|
      invariant |parsed| == r
      invariant forall q :: 0 <= q < r ==> parsed[q] == Csv.Columns(rows[q]) && |parsed[q]| == headers
    {
      var cols := Csv.ParseCSVRow(rows[r]);
      Csv.ColumnCount(rows[r]);
      parsed := parsed + [cols];
    }
  }
}
