/** The document service's reader for one CSV row, and the row check built on it. */
module Csv {
  import opened Wrappers
  import opened Sequences
  import opened Strings

  /** White space as String.prototype.trim sees it. */
  predicate JsSpace(c: char) {
    || '\t' <= c <= '\r' || c == ' ' || c as int == 0xA0 || c as int == 0x1680
    || 0x2000 <= c as int <= 0x200A || c as int == 0x2028 || c as int == 0x2029
    || c as int == 0x202F || c as int == 0x205F || c as int == 0x3000 || c as int == 0xFEFF
  }

  /** The text so far leaves a quote open. */
  predicate Inside(s: string) {
    s != "" && (if s[|s| - 1] == '"' then !Inside(s[..|s| - 1]) else Inside(s[..|s| - 1]))
  }

  function Quotes(s: string): nat {
    if s == "" then 0 else Quotes(s[..|s| - 1]) + if s[|s| - 1] == '"' then 1 else 0
  }

  lemma {:induction false} InsideIsParity(s: string)
    ensures Inside(s) <==> Quotes(s) % 2 == 1
  {
    if s != "" {
      InsideIsParity(s[..|s| - 1]);
    }
  }

  // ---- What a row means, by quote parity alone ----

  /** A comma after an even number of quotes. */
  predicate Separates(row: string, i: nat)
    requires i < |row|
  {
    row[i] == ',' && Quotes(row[..i]) % 2 == 0
  }

  function Separators(row: string): set<nat> {
    set i: nat | i < |row| && Separates(row, i)
  }

  /** The row cut at its separators. */
  function Pieces(row: string): (ps: seq<string>)
    ensures ps != []
  {
    if row == "" then [""]
    else
      var front, c := row[..|row| - 1], row[|row| - 1];
      var ps := Pieces(front);
      if c == ',' && !Inside(front) then ps + [""] else ps[..|ps| - 1] + [ps[|ps| - 1] + [c]]
  }

  /** The text of a piece: a quote is dropped, unless it follows a closing one. */
  function Unquoted(piece: string): string {
    if piece == "" then ""
    else
      var front, c := piece[..|piece| - 1], piece[|piece| - 1];
      if c != '"' then Unquoted(front) + [c]
      else if front != "" && front[|front| - 1] == '"' && !Inside(front) then Unquoted(front) + "\""
      else Unquoted(front)
  }

  function Field(piece: string): string {
    Trim(Unquoted(piece), JsSpace)
  }

  function Fields(ps: seq<string>): seq<string> {
    seq(|ps|, i requires 0 <= i < |ps| => Field(ps[i]))
  }

  function Columns(row: string): seq<string> {
    Fields(Pieces(row))
  }

  // ---- One character more ----

  function Last(ps: seq<string>): string
    requires ps != []
  {
    ps[|ps| - 1]
  }

  lemma InsideAppend(s: string, c: char)
    ensures Inside(s + [c]) == if c == '"' then !Inside(s) else Inside(s)
  {
    assert (s + [c])[..|s|] == s;
  }

  lemma UnquotedAppend(s: string, c: char)
    ensures Unquoted(s + [c]) ==
            if c != '"' then Unquoted(s) + [c]
            else if s != "" && s[|s| - 1] == '"' && !Inside(s) then Unquoted(s) + "\"" else Unquoted(s)
  {
    hide Inside;
    assert (s + [c])[..|s|] == s && (s + [c])[|s|] == c;
  }

  lemma PiecesAppend(row: string, c: char)
    ensures var ps := Pieces(row);
            Pieces(row + [c]) ==
            if c == ',' && !Inside(row) then ps + [""] else ps[..|ps| - 1] + [Last(ps) + [c]]
  {
    assert (row + [c])[..|row|] == row;
  }

  /** The last piece has the row's own quote parity and, unless it is empty, its end. */
  lemma {:induction false} LastPiece(row: string)
    ensures Inside(Last(Pieces(row))) == Inside(row)
    ensures Last(Pieces(row)) == "" <==> row == "" || (row[|row| - 1] == ',' && !Inside(row[..|row| - 1]))
    ensures Last(Pieces(row)) != "" ==> Last(Pieces(row))[|Last(Pieces(row))| - 1] == row[|row| - 1]
  {
    if row != "" {
      var front, c := row[..|row| - 1], row[|row| - 1];
      LastPiece(front);
      PiecesAppend(front, c);
      InsideAppend(Last(Pieces(front)), c);
      InsideAppend(front, c);
      Snoc(row);
      hide Pieces, Inside;
    }
  }

  // ---- The reader ----

  /** What the loop has made of the row up to `i`. */
  predicate ReadSoFar(row: string, i: nat, cols: seq<string>, current: string, inQuotes: bool) {
    && i <= |row| && inQuotes == Inside(row[..i])
    && (i > 0 && row[i - 1] == '"' && !inQuotes && i < |row| ==> row[i] != '"')
    && var ps := Pieces(row[..i]); cols == Fields(ps[..|ps| - 1]) && current == Unquoted(Last(ps))
  }

  /** Its lookahead for doubled quotes agrees with plain quote parity. */
  method ParseCSVRow(row: string) returns (cols: seq<string>)
    ensures cols == Columns(row)
  {
    hide ReadSoFar, Columns;
    cols := [];
    var current, inQuotes := "", false;
    var i := 0;
    NothingRead(row);
    while i < |row|
      invariant i <= |row| && ReadSoFar(row, i, cols, current, inQuotes)
    {
      var ch := row[i];
      ReadOn(row, i, cols, current, inQuotes);
      if ch == '"' {
        if inQuotes && i + 1 < |row| && row[i + 1] == '"' {
          current := current + "\"";
          i := i + 1;
        } else {
          inQuotes := !inQuotes;
        }
      } else if ch == ',' && !inQuotes {
        cols := cols + [Trim(current, JsSpace)];
        current := "";
      } else {
        current := current + [ch];
      }
      i := i + 1;
    }
    AllRead(row, cols, current, inQuotes);
    cols := cols + [Trim(current, JsSpace)];
  }

  lemma NothingRead(row: string)
    ensures ReadSoFar(row, 0, [], "", false)
  {
    assert row[..0] == "" && Pieces("") == [""];
  }

  lemma AllRead(row: string, cols: seq<string>, current: string, inQuotes: bool)
    requires ReadSoFar(row, |row|, cols, current, inQuotes)
    ensures cols + [Trim(current, JsSpace)] == Columns(row)
  {
    assert row[..|row|] == row;
    hide Pieces, Unquoted, Inside, Trim;
    FieldsSnoc(Pieces(row));
  }

  lemma FieldsSnoc(ps: seq<string>)
    requires ps != []
    ensures Fields(ps) == Fields(ps[..|ps| - 1]) + [Field(Last(ps))]
  {
    hide Field;
  }

  /** One turn of the loop. */
  lemma ReadOn(row: string, i: nat, cols: seq<string>, current: string, inQuotes: bool)
    requires i < |row| && ReadSoFar(row, i, cols, current, inQuotes)
    ensures var ch := row[i];
            if ch == '"' then
              if inQuotes && i + 1 < |row| && row[i + 1] == '"'
              then ReadSoFar(row, i + 2, cols, current + "\"", true)
              else ReadSoFar(row, i + 1, cols, current, !inQuotes)
            else if ch == ',' && !inQuotes then ReadSoFar(row, i + 1, cols + [Trim(current, JsSpace)], "", false)
            else ReadSoFar(row, i + 1, cols, current + [ch], inQuotes)
  {
    hide Pieces, Unquoted, Inside, Trim, Fields;
    OneMore(row, i);
    if row[i] == '"' && inQuotes && i + 1 < |row| && row[i + 1] == '"' {
      OneMore(row, i + 1);
    }
  }

  /** One character more, whichever it is. */
  lemma OneMore(row: string, i: nat)
    requires i < |row|
    ensures var (s, c) := (row[..i], row[i]);
            var (ps, after) := (Pieces(s), Pieces(row[..i + 1]));
            && Inside(row[..i + 1]) == (if c == '"' then !Inside(s) else Inside(s))
            && (if c == ',' && !Inside(s) then
                  after[..|after| - 1] == ps && Fields(ps) == Fields(ps[..|ps| - 1]) + [Field(Last(ps))]
                  && Unquoted(Last(after)) == ""
                else
                  after[..|after| - 1] == ps[..|ps| - 1]
                  && Unquoted(Last(after)) ==
                     if c != '"' then Unquoted(Last(ps)) + [c]
                     else if i > 0 && row[i - 1] == '"' && !Inside(s) then Unquoted(Last(ps)) + "\""
                     else Unquoted(Last(ps)))
  {
    hide Pieces, Inside, Fields, Field, Unquoted;
    var s, c := row[..i], row[i];
    NothingUnquoted();
    assert row[..i + 1] == s + [c];
    InsideAppend(s, c);
    PiecesAppend(s, c);
    LastPiece(s);
    UnquotedAppend(Last(Pieces(s)), c);
    FieldsSnoc(Pieces(s));
  }

  lemma NothingUnquoted()
    ensures Unquoted("") == ""
  {
  }

  // ---- Pieces determine the row, and the row its pieces ----

  function Join(ps: seq<string>): string
    requires ps != []
  {
    if |ps| == 1 then ps[0] else Join(ps[..|ps| - 1]) + "," + ps[|ps| - 1]
  }

  predicate CommasInside(s: string) {
    forall i :: 0 <= i < |s| && s[i] == ',' ==> Inside(s[..i])
  }

  /** Nothing to cut: balanced quotes, and every comma within them. */
  predicate Whole(piece: string) {
    !Inside(piece) && CommasInside(piece)
  }

  lemma CommasInsidePrefix(s: string)
    requires CommasInside(s) && s != ""
    ensures CommasInside(s[..|s| - 1])
  {
    var front := s[..|s| - 1];
    forall i | 0 <= i < |front| && front[i] == ',' ensures Inside(front[..i]) {
      assert front[..i] == s[..i];
    }
  }

  lemma {:induction false} InsideOfParts(a: string, b: string)
    ensures Inside(a + b) == (Inside(a) != Inside(b))
  {
    if b == "" {
      assert a + b == a;
    } else {
      InsideOfParts(a, b[..|b| - 1]);
      assert (a + b)[..|a + b| - 1] == a + b[..|b| - 1];
    }
  }

  /** A piece without separators of its own, after a comma, is one piece more. */
  lemma {:induction false} PieceAdded(row: string, piece: string)
    requires !Inside(row) && CommasInside(piece)
    ensures Pieces(row + "," + piece) == Pieces(row) + [piece]
  {
    if piece == "" {
      PiecesAppend(row, ',');
      assert row + "," + piece == row + [','];
    } else {
      var front, c := piece[..|piece| - 1], piece[|piece| - 1];
      CommasInsidePrefix(piece);
      assert c == ',' ==> Inside(front);
      hide Pieces, Inside, CommasInside;
      PieceAdded(row, front);
      var r := row + "," + front;
      PiecesAppend(r, c);
      InsideOfParts(row + ",", front);
      InsideAppend(row, ',');
      Snoc(piece);
      Associative(row + ",", front, [c]);
      assert Pieces(r)[..|Pieces(row)|] == Pieces(row);
    }
  }

  lemma {:induction false} OnlyPiece(piece: string)
    requires CommasInside(piece)
    ensures Pieces(piece) == [piece]
  {
    if piece != "" {
      CommasInsidePrefix(piece);
      OnlyPiece(piece[..|piece| - 1]);
      assert piece == piece[..|piece| - 1] + [piece[|piece| - 1]];
    }
  }

  /** Pieces without separators of their own come back from the row they are joined to. */
  lemma {:induction false} JoinThenCut(ps: seq<string>)
    requires ps != [] && forall i :: 0 <= i < |ps| ==> Whole(ps[i])
    ensures Pieces(Join(ps)) == ps && !Inside(Join(ps))
  {
    if |ps| == 1 {
      OnlyPiece(ps[0]);
    } else {
      hide Pieces, Inside, CommasInside;
      var front, last := ps[..|ps| - 1], ps[|ps| - 1];
      assert forall i :: 0 <= i < |front| ==> front[i] == ps[i];
      JoinThenCut(front);
      assert ps == front + [last];
      PieceAdded(Join(front), last);
      InsideOfParts(Join(front) + ",", last);
      InsideAppend(Join(front), ',');
    }
  }

  /** Every row is its pieces joined, and there is one piece more than separators. */
  lemma {:induction false} CutThenJoin(row: string)
    ensures Join(Pieces(row)) == row && |Pieces(row)| == 1 + |Separators(row)|
  {
    if row != "" {
      var front, c := row[..|row| - 1], row[|row| - 1];
      CutThenJoin(front);
      SeparatorsAppend(front, c);
      PiecesAppend(front, c);
      JoinAppend(Pieces(front), c);
      Snoc(row);
      hide Pieces, Inside, Separators, Join;
    }
  }

  lemma JoinAppend(ps: seq<string>, c: char)
    requires ps != []
    ensures Join(ps + [""]) == Join(ps) + ","
    ensures Join(ps[..|ps| - 1] + [Last(ps) + [c]]) == Join(ps) + [c]
  {
    JoinSnoc(ps, "");
    if |ps| > 1 {
      var front := ps[..|ps| - 1];
      JoinSnoc(front, Last(ps) + [c]);
      JoinSnoc(front, Last(ps));
      Snoc(ps);
      hide Join;
      Associative(Join(front) + ",", Last(ps), [c]);
    }
  }

  lemma JoinSnoc(ps: seq<string>, p: string)
    requires ps != []
    ensures Join(ps + [p]) == Join(ps) + "," + p
  {
    assert (ps + [p])[..|ps|] == ps;
  }

  /** Every piece is whole, but for a quote the last one may leave open. */
  lemma {:induction false} CutIsWhole(row: string)
    ensures CommasInside(Last(Pieces(row)))
    ensures forall i :: 0 <= i < |Pieces(row)| - 1 ==> Whole(Pieces(row)[i])
  {
    if row != "" {
      var front, c := row[..|row| - 1], row[|row| - 1];
      CutIsWhole(front);
      LastPiece(front);
      PiecesAppend(front, c);
      Snoc(row);
      hide Pieces, Inside, CommasInside;
      if c == ',' && !Inside(front) {
        NoCommas();
      } else {
        CommasInsideAppend(Last(Pieces(front)), c);
      }
    }
  }

  lemma NoCommas()
    ensures CommasInside("")
  {
  }

  lemma CommasInsideAppend(s: string, c: char)
    requires CommasInside(s) && (c == ',' ==> Inside(s))
    ensures CommasInside(s + [c])
  {
    forall i | 0 <= i < |s + [c]| && (s + [c])[i] == ',' ensures Inside((s + [c])[..i]) {
      assert (s + [c])[..i] == s[..i];
      assert s[..|s|] == s;
    }
  }

  lemma SeparatesAppend(s: string, c: char, i: nat)
    requires i <= |s|
    ensures Separates(s + [c], i) == if i < |s| then Separates(s, i) else c == ',' && !Inside(s)
  {
    assert (s + [c])[..i] == s[..i] && s[..|s|] == s;
    InsideIsParity(s);
    hide Inside, Quotes;
  }

  lemma SeparatorsAppend(s: string, c: char)
    ensures |Separators(s + [c])| == |Separators(s)| + if c == ',' && !Inside(s) then 1 else 0
  {
    hide Separates, Inside;
    forall i: nat | i <= |s|
      ensures Separates(s + [c], i) == if i < |s| then Separates(s, i) else c == ',' && !Inside(s)
    {
      SeparatesAppend(s, c, i);
    }
    assert Separators(s + [c]) == Separators(s) + if c == ',' && !Inside(s) then {|s|} else {};
  }

  /** A row has one column more than it has commas after an even number of quotes. */
  lemma ColumnCount(row: string)
    ensures |Columns(row)| == 1 + |Separators(row)|
  {
    CutThenJoin(row);
  }

  // ---- Writing a row, RFC 4180 section 2 ----

  function Doubled(field: string): string {
    if field == "" then ""
    else
      var c := field[|field| - 1];
      Doubled(field[..|field| - 1]) + if c == '"' then "\"\"" else [c]
  }

  /** A field that may be written without quotes. */
  predicate Bare(field: string) {
    '"' !in field && ',' !in field && '\r' !in field && '\n' !in field
  }

  function Written(field: string, quoted: bool): string {
    if quoted then "\"" + Doubled(field) + "\"" else field
  }

  function WrittenAll(fields: seq<string>, quoted: seq<bool>): seq<string>
    requires |fields| == |quoted|
  {
    seq(|fields|, i requires 0 <= i < |fields| => Written(fields[i], quoted[i]))
  }

  function WrittenRow(fields: seq<string>, quoted: seq<bool>): string
    requires |fields| == |quoted| && fields != []
  {
    Join(WrittenAll(fields, quoted))
  }

  lemma {:induction false} BareReads(field: string)
    requires '"' !in field
    ensures Unquoted(field) == field && !Inside(field)
  {
    if field != "" {
      assert field == field[..|field| - 1] + [field[|field| - 1]];
      assert field[|field| - 1] in field;
      BareReads(field[..|field| - 1]);
    }
  }

  lemma {:induction false} OpenQuoteReads(field: string)
    ensures var s := "\"" + Doubled(field);
            Inside(s) && CommasInside(s) && Unquoted(s) == field
  {
    var s := "\"" + Doubled(field);
    if field == "" {
      assert s == "" + ['"'];
      InsideAppend("", '"');
      UnquotedAppend("", '"');
    } else {
      var front, c := field[..|field| - 1], field[|field| - 1];
      var t := "\"" + Doubled(front);
      hide Unquoted, Inside, CommasInside;
      OpenQuoteReads(front);
      InsideAppend(t, c);
      UnquotedAppend(t, c);
      CommasInsideAppend(t, c);
      Snoc(field);
      if c == '"' {
        InsideAppend(t + [c], c);
        UnquotedAppend(t + [c], c);
        CommasInsideAppend(t + [c], c);
        Associative(t, [c], [c]);
        assert [c] + [c] == "\"\"";
        Associative("\"", Doubled(front), [c] + [c]);
      } else {
        Associative("\"", Doubled(front), [c]);
      }
    }
  }

  lemma WrittenReads(field: string, quoted: bool)
    requires quoted || Bare(field)
    ensures Whole(Written(field, quoted)) && Unquoted(Written(field, quoted)) == field
  {
    if quoted {
      var s := "\"" + Doubled(field);
      OpenQuoteReads(field);
      InsideAppend(s, '"');
      UnquotedAppend(s, '"');
      CommasInsideAppend(s, '"');
      assert Written(field, quoted) == s + ['"'];
    } else {
      BareReads(field);
    }
  }

  /** Reading a written row gives the fields without their outer white space. */
  lemma ReadsTrimmed(fields: seq<string>, quoted: seq<bool>)
    requires |fields| == |quoted| && fields != []
    requires forall i :: 0 <= i < |fields| ==> quoted[i] || Bare(fields[i])
    ensures Columns(WrittenRow(fields, quoted))
         == seq(|fields|, i requires 0 <= i < |fields| => Trim(fields[i], JsSpace))
  {
    var ps := WrittenAll(fields, quoted);
    forall i | 0 <= i < |fields| ensures Whole(ps[i]) && Unquoted(ps[i]) == fields[i] {
      WrittenReads(fields[i], quoted[i]);
    }
    hide Written, Whole, Unquoted, Pieces;
    JoinThenCut(ps);
  }

  /** So the reader inverts the writer exactly on fields without outer white space,
      however the writer chooses which of them to quote. */
  lemma RoundTrip(fields: seq<string>, quoted: seq<bool>)
    requires |fields| == |quoted| && fields != []
    requires forall i :: 0 <= i < |fields| ==> quoted[i] || Bare(fields[i])
    ensures Columns(WrittenRow(fields, quoted)) == fields
            <==> forall i :: 0 <= i < |fields| ==> Trimmed(fields[i], JsSpace)
  {
    hide Columns, WrittenRow, Trimmed, Trim;
    ReadsTrimmed(fields, quoted);
    var read := Columns(WrittenRow(fields, quoted));
    forall i | 0 <= i < |fields| ensures read[i] == fields[i] <==> Trimmed(fields[i], JsSpace) {
      TrimFixpoint(fields[i], JsSpace);
    }
  }

  /** The code units ECMAScript counts as white space or line ends. */
  const WHITE_SPACE: set<int> := {
    0x09, 0x0A, 0x0B, 0x0C, 0x0D, 0x20, 0xA0, 0x1680, 0x2000, 0x2001, 0x2002, 0x2003, 0x2004, 0x2005, 0x2006,
    0x2007, 0x2008, 0x2009, 0x200A, 0x2028, 0x2029, 0x202F, 0x205F, 0x3000, 0xFEFF}

  /** Before a field one of these is dropped, and any other character but a comma or a
      quote is kept. */
  lemma BlankBeforeField(c: char)
    requires c != ',' && c != '"'
    ensures Columns("name," + [c] + "age") == ["name", if c as int in WHITE_SPACE then "age" else [c] + "age"]
  {
    hide Pieces, Unquoted, Trim, WHITE_SPACE, JsSpace;
    TwoFields(c);
    WhiteSpace(c);
    TrimFixpoint("name", JsSpace);
    TrimmedAge(c);
    assert Trimmed("name", JsSpace) by {
      WhiteSpace('n');
      WhiteSpace('e');
    }
  }

  lemma TwoFields(c: char)
    requires c != ',' && c != '"'
    ensures Columns("name," + [c] + "age") == [Trim("name", JsSpace), Trim([c] + "age", JsSpace)]
  {
    hide Pieces, Unquoted, Trim, Inside;
    var age := [c] + "age";
    BareReads("name");
    BareReads(age);
    OnlyPiece("name");
    PieceAdded("name", age);
    assert "name" + "," == "name,";
    Associative("name,", [c], "age");
  }

  lemma WhiteSpace(c: char)
    ensures JsSpace(c) <==> c as int in WHITE_SPACE
    ensures c in "nameg" ==> !JsSpace(c)
  {
  }

  lemma TrimmedAge(c: char)
    ensures Trim([c] + "age", JsSpace) == if JsSpace(c) then "age" else [c] + "age"
  {
    hide JsSpace;
    WhiteSpace('a');
    WhiteSpace('e');
    var s := [c] + "age";
    assert s[1..] == "age" && s[0] == c;
    TrimFixpoint("age", JsSpace);
    TrimFixpoint(s, JsSpace);
    if JsSpace(c) {
      assert TrimLeft("age", JsSpace) == "age";
      assert TrimLeft(s, JsSpace) == "age";
    }
  }

  // ---- The row check ----

  datatype RowError = RowError(row: nat, columns: nat)

  /** The first row whose column count is not the header's, if there is one. */
  method CheckRows(headers: nat, rows: seq<string>) returns (error: Option<RowError>)
    ensures error.None? <==> forall r :: 0 <= r < |rows| ==> 1 + |Separators(rows[r])| == headers
    ensures error.Some? ==>
              var RowError(r, columns) := error.value;
              && r < |rows| && columns == 1 + |Separators(rows[r])| != headers
              && forall q :: 0 <= q < r ==> 1 + |Separators(rows[q])| == headers
  {
    for r := 0 to |rows|
      invariant forall q :: 0 <= q < r ==> 1 + |Separators(rows[q])| == headers
    {
      var cols := ParseCSVRow(rows[r]);
      ColumnCount(rows[r]);
      if |cols| != headers {
        return Some(RowError(r, |cols|));
      }
    }
    return None;
  }
}
