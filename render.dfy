/**
  What `convert_to_pdf` (main.py) puts into a PDF for each strategy: the FPDF object the
  document, spreadsheet and text branches fill block by block, the text of a spreadsheet
  row, the lines of a text file, and the colour mode an image is saved in.
 */
module Render {

  datatype Option<T> = None | Some(value: T)

  /** A core font selection, as `set_font(family, size=...)` makes it. */
  datatype Font = Font(family: string, size: nat)

  /** One call that places text: `multi_cell` flows text over as many lines as it needs,
      `cell(..., ln=True)` writes one line and moves below it. */
  datatype Block = Flowed(text: string) | Line(text: string)

  /** The content of a written PDF file: a text document, or one page holding an image in
      the given colour mode. */
  datatype Pdf = Document(font: Font, pages: nat, blocks: seq<Block>) | ImagePage(mode: string)

  /** The part of an `FPDF` object the script uses: pages added, the current font and the
      text blocks placed, in order. */
  class Fpdf {
    var pages: nat
    var font: Option<Font>
    var blocks: seq<Block>

    constructor ()
      ensures pages == 0 && font == None && blocks == []
    {
      pages := 0;
      font := None;
      blocks := [];
    }

    method AddPage()
      modifies this
      ensures pages == old(pages) + 1 && font == old(font) && blocks == old(blocks)
    {
      pages := pages + 1;
    }

    method SetFont(family: string, size: nat)
      modifies this
      ensures font == Some(Font(family, size)) && pages == old(pages) && blocks == old(blocks)
    {
      font := Some(Font(family, size));
    }

    /** Text is placed with the font already chosen; FPDF refuses text before `set_font`. */
    method MultiCell(text: string)
      requires font.Some?
      modifies this
      ensures blocks == old(blocks) + [Flowed(text)] && pages == old(pages) && font == old(font)
    {
      blocks := blocks + [Flowed(text)];
    }

    method Cell(text: string)
      requires font.Some?
      modifies this
      ensures blocks == old(blocks) + [Line(text)] && pages == old(pages) && font == old(font)
    {
      blocks := blocks + [Line(text)];
    }

    /** What `output` writes. */
    function Output(): Pdf
      requires font.Some?
      reads this
    {
      Document(font.value, pages, blocks)
    }
  }

  /** The text each block carries, in order. */
  function Texts(blocks: seq<Block>): (ts: seq<string>)
    ensures |ts| == |blocks|
    ensures forall i :: 0 <= i < |blocks| ==> ts[i] == blocks[i].text
  {
    seq(|blocks|, i requires 0 <= i < |blocks| => blocks[i].text)
  }

  /** All the strings, one after the other. */
  function Concat(ss: seq<string>): string
  {
    if ss == [] then "" else ss[0] + Concat(ss[1..])
  }

  // ---------------------------------------------------------------------------
  // Word documents: one flowed block per paragraph, Arial 12
  // ---------------------------------------------------------------------------

  function FlowedBlocks(texts: seq<string>): (bs: seq<Block>)
    ensures |bs| == |texts|
    ensures forall i :: 0 <= i < |texts| ==> bs[i] == Flowed(texts[i])
  {
    seq(|texts|, i requires 0 <= i < |texts| => Flowed(texts[i]))
  }

  /** The PDF the `.docx` branch writes for a document with these paragraph texts. */
  function WordPdf(paragraphs: seq<string>): Pdf
  {
    Document(Font("Arial", 12), 1, FlowedBlocks(paragraphs))
  }

  /** Every paragraph's text appears, in order, and nothing else. */
  lemma WordPdfKeepsParagraphs(paragraphs: seq<string>)
    ensures WordPdf(paragraphs).font.size == 12
    ensures Texts(WordPdf(paragraphs).blocks) == paragraphs
    ensures forall b :: b in WordPdf(paragraphs).blocks ==> b.Flowed?
  {
  }

  method RenderWord(paragraphs: seq<string>) returns (pdf: Pdf)
    ensures pdf == WordPdf(paragraphs)
  {
    var fpdf := new Fpdf();
    fpdf.AddPage();
    fpdf.SetFont("Arial", 12);
    for i := 0 to |paragraphs|
      invariant fpdf.pages == 1 && fpdf.font == Some(Font("Arial", 12))
      invariant fpdf.blocks == FlowedBlocks(paragraphs[..i])
    {
      fpdf.MultiCell(paragraphs[i]);
      assert paragraphs[..i + 1] == paragraphs[..i] + [paragraphs[i]];
    }
    assert paragraphs[..|paragraphs|] == paragraphs;
    pdf := fpdf.Output();
  }

  // ---------------------------------------------------------------------------
  // Spreadsheets: one line per data row, Arial 10
  // ---------------------------------------------------------------------------

  /** A value in a column of the frame `read_excel` builds: text, an integral number,
      a float with a fractional part (carried as the text `str` prints for it), a boolean,
      or an empty cell, which pandas reads as NaN. */
  datatype Cell = Text(s: string) | Whole(n: int) | Real(repr: string) | Flag(b: bool) | Missing

  /** The dtype of a column of the frame. */
  datatype ColumnType = IntColumn | FloatColumn | BoolColumn | ObjectColumn

  function DigitChar(d: int): (c: char)
    requires 0 <= d < 10
    ensures '0' <= c <= '9' && c as int - '0' as int == d
  {
    (d + '0' as int) as char
  }

  /** The decimal numeral of `n`, without leading zeros. */
  function NatToString(n: nat): (s: string)
    ensures s != [] && (forall i :: 0 <= i < |s| ==> '0' <= s[i] <= '9')
    ensures |s| > 1 ==> s[0] != '0'
  {
    if n < 10 then [DigitChar(n)] else NatToString(n / 10) + [DigitChar(n % 10)]
  }

  /** The value a numeral spells. */
  function ParseNat(s: string): nat
  {
    if s == [] then 0
    else
      var d := s[|s| - 1] as int - '0' as int;
      ParseNat(s[..|s| - 1]) * 10 + (if 0 <= d < 10 then d else 0)
  }

  lemma {:induction false} ParseNatToString(n: nat)
    ensures ParseNat(NatToString(n)) == n
  {
    if n >= 10 {
      var s := NatToString(n);
      assert s[..|s| - 1] == NatToString(n / 10);
      ParseNatToString(n / 10);
    }
  }

  /** `str(n)` for a whole number. */
  function IntToString(n: int): string
  {
    if n < 0 then "-" + NatToString(-n) else NatToString(n)
  }

  /** `int(str(n)) == n`: the numeral spells the number back. */
  lemma IntToStringParses(n: int)
    ensures var s := IntToString(n);
      if n < 0 then s[0] == '-' && -(ParseNat(s[1..]) as int) == n else ParseNat(s) == n
  {
    if n < 0 {
      ParseNatToString(-n);
      assert IntToString(n)[1..] == NatToString(-n);
    } else {
      ParseNatToString(n);
    }
  }

  /** `df.iterrows()` hands each row over as one series whose dtype is the columns' common
      type: integer columns only give integers, boolean columns only give booleans,
      integer and float columns together give floats, and any other mix keeps each value
      as it is. */
  function RowType(columns: seq<ColumnType>): ColumnType
  {
    if columns != [] && forall j :: 0 <= j < |columns| ==> columns[j] == IntColumn then IntColumn
    else if columns != [] && forall j :: 0 <= j < |columns| ==> columns[j] == BoolColumn then BoolColumn
    else if columns != [] && forall j :: 0 <= j < |columns| ==> columns[j] == IntColumn || columns[j] == FloatColumn
    then FloatColumn
    else ObjectColumn
  }

  /** The value of column `j` reaches `str` as a float: its column is a float column, or
      the whole row was turned into floats. */
  predicate AsFloat(columns: seq<ColumnType>, j: int)
  {
    RowType(columns) == FloatColumn || (0 <= j < |columns| && columns[j] == FloatColumn)
  }

  /** `str(value)` for a value of `row.values`: a float with an integral value prints with
      ".0", booleans print as "True" and "False", and NaN prints as "nan". */
  function CellText(c: Cell, asFloat: bool): string
  {
    match c
    case Text(s) => s
    case Whole(n) => if asFloat then IntToString(n) + ".0" else IntToString(n)
    case Real(r) => r
    case Flag(b) => if b then "True" else "False"
    case Missing => "nan"
  }

  /** `map(str, row.values)` for a data row of a frame with these column types. */
  function RowValueTexts(columns: seq<ColumnType>, row: seq<Cell>): (ts: seq<string>)
    ensures |ts| == |row|
    ensures forall j :: 0 <= j < |row| ==> ts[j] == CellText(row[j], AsFloat(columns, j))
  {
    seq(|row|, j requires 0 <= j < |row| => CellText(row[j], AsFloat(columns, j)))
  }

  /** A row becomes floats exactly when every column is an integer or float column and at
      least one is a float column. */
  lemma RowTypeFloat(columns: seq<ColumnType>)
    ensures RowType(columns) == FloatColumn <==>
      && (forall j :: 0 <= j < |columns| ==> columns[j] == IntColumn || columns[j] == FloatColumn)
      && (exists j :: 0 <= j < |columns| && columns[j] == FloatColumn)
  {
    if (forall j :: 0 <= j < |columns| ==> columns[j] == IntColumn || columns[j] == FloatColumn)
      && (exists j :: 0 <= j < |columns| && columns[j] == FloatColumn)
    {
      var k :| 0 <= k < |columns| && columns[k] == FloatColumn;
      assert columns[k] != IntColumn && columns[k] != BoolColumn;
    }
  }

  /** In a row of integer and float columns, an integer is printed as a float: a data row
      `5 | (empty)` under an integer and a float column prints as "5.0, nan". */
  lemma IntegerInFloatRow(columns: seq<ColumnType>, row: seq<Cell>, j: int)
    requires RowType(columns) == FloatColumn
    requires 0 <= j < |row| && row[j].Whole?
    ensures RowValueTexts(columns, row)[j] == IntToString(row[j].n) + ".0"
  {
  }

  /** In a row that has a text, boolean or other column besides the numbers, an integer
      in an integer column prints as an integer. */
  lemma IntegerInMixedRow(columns: seq<ColumnType>, row: seq<Cell>, j: int)
    requires exists k :: 0 <= k < |columns| && columns[k] == ObjectColumn
    requires 0 <= j < |row| && j < |columns| && columns[j] == IntColumn && row[j].Whole?
    ensures RowValueTexts(columns, row)[j] == IntToString(row[j].n)
  {
    var k :| 0 <= k < |columns| && columns[k] == ObjectColumn;
    assert columns[k] != IntColumn && columns[k] != FloatColumn && columns[k] != BoolColumn;
  }

  /** `", ".join(texts)` */
  function JoinRow(texts: seq<string>): string
  {
    if texts == [] then ""
    else if |texts| == 1 then texts[0]
    else texts[0] + ", " + JoinRow(texts[1..])
  }

  /** The text of the line for one data row: `", ".join(map(str, row.values))`. */
  function RowText(columns: seq<ColumnType>, row: seq<Cell>): string
  {
    JoinRow(RowValueTexts(columns, row))
  }

  /** `s` contains the separator ", ". */
  predicate HasSeparator(s: string)
  {
    exists i :: 0 <= i < |s| - 1 && s[i] == ',' && s[i + 1] == ' '
  }

  /** Cuts a line at every ", ", from left to right. */
  function Split(s: string): (r: seq<string>)
    ensures |r| >= 1
  {
    if s == [] then [""]
    else if |s| >= 2 && s[0] == ',' && s[1] == ' ' then [""] + Split(s[2..])
    else
      var t := Split(s[1..]);
      [[s[0]] + t[0]] + t[1..]
  }

  lemma {:induction false} SplitNoSeparator(c: string)
    requires !HasSeparator(c)
    ensures Split(c) == [c]
  {
    if c != [] {
      assert !HasSeparator(c[1..]) by {
        forall i | 0 <= i < |c[1..]| - 1
          ensures !(c[1..][i] == ',' && c[1..][i + 1] == ' ')
        {
          assert c[1..][i] == c[i + 1] && c[1..][i + 1] == c[i + 2];
        }
      }
      SplitNoSeparator(c[1..]);
      assert !(|c| >= 2 && c[0] == ',' && c[1] == ' ');
      assert [c[0]] + c[1..] == c;
    }
  }

  lemma {:induction false} SplitAtSeparator(c: string, rest: string)
    requires !HasSeparator(c)
    ensures Split(c + ", " + rest) == [c] + Split(rest)
  {
    var s := c + ", " + rest;
    if c == [] {
      assert s[2..] == rest;
    } else {
      assert !HasSeparator(c[1..]) by {
        forall i | 0 <= i < |c[1..]| - 1
          ensures !(c[1..][i] == ',' && c[1..][i + 1] == ' ')
        {
          assert c[1..][i] == c[i + 1] && c[1..][i + 1] == c[i + 2];
        }
      }
      assert !(s[0] == ',' && s[1] == ' ') by {
        if |c| >= 2 {
          assert s[0] == c[0] && s[1] == c[1];
        } else {
          assert s[1] == ',';
        }
      }
      assert s[1..] == c[1..] + ", " + rest;
      SplitAtSeparator(c[1..], rest);
      assert [c[0]] + c[1..] == c;
    }
  }

  /** A row renders to a line that cuts back into its cells, as long as no cell itself
      contains ", ". */
  lemma {:induction false} SplitJoinRow(texts: seq<string>)
    requires texts != []
    requires forall i :: 0 <= i < |texts| ==> !HasSeparator(texts[i])
    ensures Split(JoinRow(texts)) == texts
  {
    if |texts| == 1 {
      SplitNoSeparator(texts[0]);
    } else {
      SplitJoinRow(texts[1..]);
      SplitAtSeparator(texts[0], JoinRow(texts[1..]));
      assert [texts[0]] + texts[1..] == texts;
    }
  }

  /** Integral numbers, as integers or as floats, booleans and empty cells never contain
      the separator. */
  lemma CellTextWithoutSeparator(c: Cell, asFloat: bool)
    requires c.Whole? || c.Flag? || c.Missing?
    ensures !HasSeparator(CellText(c, asFloat))
  {
    var s := CellText(c, asFloat);
    if c.Whole? {
      var d := IntToString(c.n);
      forall k | 0 <= k < |d|
        ensures d[k] != ','
      {
        if c.n < 0 && k > 0 {
          assert d[k] == NatToString(-c.n)[k - 1];
        } else if c.n >= 0 {
          assert d[k] == NatToString(c.n)[k];
        }
      }
      forall i | 0 <= i < |s| - 1
        ensures s[i] != ','
      {
        if i < |d| {
          assert s[i] == d[i];
        } else {
          assert s[i] == ".0"[i - |d|];
        }
      }
    }
  }

  /** A sheet with an integer and a float column whose data row holds 5 and an empty cell
      prints that row as "5.0, nan". */
  lemma FloatRowExample()
    ensures RowText([IntColumn, FloatColumn], [Whole(5), Missing]) == "5.0, nan"
  {
    var columns := [IntColumn, FloatColumn];
    RowTypeFloat(columns);
    assert columns[1] == FloatColumn;
    assert RowType(columns) == FloatColumn;
    assert DigitChar(5) == '5';
    assert IntToString(5) == "5";
    var ts := RowValueTexts(columns, [Whole(5), Missing]);
    assert ts[0] == "5.0" && ts[1] == "nan";
    assert ts == ["5.0", "nan"];
  }

  function RowLines(columns: seq<ColumnType>, rows: seq<seq<Cell>>): (bs: seq<Block>)
    ensures |bs| == |rows|
    ensures forall i :: 0 <= i < |rows| ==> bs[i] == Line(RowText(columns, rows[i]))
  {
    seq(|rows|, i requires 0 <= i < |rows| => Line(RowText(columns, rows[i])))
  }

  /** The PDF the spreadsheet branch writes for these data rows. The first row of the sheet
      is taken by `read_excel` as the column labels and is not among them. */
  function SheetPdf(columns: seq<ColumnType>, rows: seq<seq<Cell>>): Pdf
  {
    Document(Font("Arial", 10), 1, RowLines(columns, rows))
  }

  /** One line per data row, in row order, each cutting back into the texts `str` gives
      that row's values when the row has a value and none of those texts contains ", ". */
  lemma SheetPdfLines(columns: seq<ColumnType>, rows: seq<seq<Cell>>, i: int)
    requires 0 <= i < |rows| && rows[i] != []
    requires forall j :: 0 <= j < |rows[i]| ==> !HasSeparator(CellText(rows[i][j], AsFloat(columns, j)))
    ensures |SheetPdf(columns, rows).blocks| == |rows|
    ensures SheetPdf(columns, rows).blocks[i].Line?
    ensures Split(SheetPdf(columns, rows).blocks[i].text) == RowValueTexts(columns, rows[i])
  {
    SplitJoinRow(RowValueTexts(columns, rows[i]));
  }

  method RenderSheet(columns: seq<ColumnType>, rows: seq<seq<Cell>>) returns (pdf: Pdf)
    ensures pdf == SheetPdf(columns, rows)
  {
    var fpdf := new Fpdf();
    fpdf.AddPage();
    fpdf.SetFont("Arial", 10);
    for i := 0 to |rows|
      invariant fpdf.pages == 1 && fpdf.font == Some(Font("Arial", 10))
      invariant fpdf.blocks == RowLines(columns, rows[..i])
    {
      fpdf.Cell(RowText(columns, rows[i]));
      assert rows[..i + 1] == rows[..i] + [rows[i]];
    }
    assert rows[..|rows|] == rows;
    pdf := fpdf.Output();
  }

  // ---------------------------------------------------------------------------
  // Text files: one flowed block per line, Arial 12
  // ---------------------------------------------------------------------------

  /** Text mode's universal newlines: "\r\n" and a lone "\r" are both read as "\n". */
  function TranslateNewlines(s: string): (r: string)
    ensures '\r' !in r
  {
    if s == [] then ""
    else if s[0] == '\r' then
      if |s| >= 2 && s[1] == '\n' then "\n" + TranslateNewlines(s[2..])
      else "\n" + TranslateNewlines(s[1..])
    else [s[0]] + TranslateNewlines(s[1..])
  }

  lemma {:induction false} TranslateKeepsPlainText(s: string)
    requires '\r' !in s
    ensures TranslateNewlines(s) == s
  {
    if s != [] {
      assert s[0] in s;
      assert forall c :: c in s[1..] ==> c in s;
      TranslateKeepsPlainText(s[1..]);
      assert [s[0]] + s[1..] == s;
    }
  }

  /** The position just after the first '\n' at or after `i`, or the end of `s`. */
  function LineEnd(s: string, i: nat): (k: nat)
    requires i <= |s|
    ensures i <= k <= |s|
    ensures forall j :: i <= j < k - 1 ==> s[j] != '\n'
    ensures k == |s| || (i < k && s[k - 1] == '\n')
    decreases |s| - i
  {
    if i == |s| then |s| else if s[i] == '\n' then i + 1 else LineEnd(s, i + 1)
  }

  /** Iterating over a file opened in text mode: each line keeps its '\n', and the last
      one ends wherever the file does. */
  function Lines(s: string): seq<string>
    decreases |s|
  {
    if s == [] then []
    else
      var k := LineEnd(s, 0);
      [s[..k]] + Lines(s[k..])
  }

  /** A well-formed list of lines: none is empty, each holds '\n' only at its end, and
      every line before the last ends in '\n'. */
  predicate LineShaped(ls: seq<string>)
  {
    forall i :: 0 <= i < |ls| ==>
      && ls[i] != []
      && (forall j :: 0 <= j < |ls[i]| - 1 ==> ls[i][j] != '\n')
      && (i < |ls| - 1 ==> ls[i][|ls[i]| - 1] == '\n')
  }

  /** The lines, put back together, give the file's text. */
  lemma {:induction false} LinesConcat(s: string)
    ensures Concat(Lines(s)) == s
    decreases |s|
  {
    if s != [] {
      var k := LineEnd(s, 0);
      LinesConcat(s[k..]);
      assert Lines(s)[1..] == Lines(s[k..]);
      assert s[..k] + s[k..] == s;
    }
  }

  lemma {:induction false} LinesShape(s: string)
    ensures LineShaped(Lines(s))
    decreases |s|
  {
    if s != [] {
      var k := LineEnd(s, 0);
      var ls := Lines(s);
      LinesShape(s[k..]);
      assert ls[1..] == Lines(s[k..]);
      if k == |s| {
        assert s[k..] == [];
      }
      forall i | 0 <= i < |ls|
        ensures ls[i] != []
        ensures forall j :: 0 <= j < |ls[i]| - 1 ==> ls[i][j] != '\n'
        ensures i < |ls| - 1 ==> ls[i][|ls[i]| - 1] == '\n'
      {
        if i > 0 {
          assert ls[i] == Lines(s[k..])[i - 1];
        }
      }
    }
  }

  /** The PDF the `.txt` branch writes for a file whose decoded text is `text`. */
  function TextPdf(text: string): Pdf
  {
    Document(Font("Arial", 12), 1, FlowedBlocks(Lines(TranslateNewlines(text))))
  }

  /** The text file's content, with its newlines translated, is exactly what the PDF holds,
      one well-formed line per block. */
  lemma TextPdfKeepsContent(text: string)
    ensures Concat(Texts(TextPdf(text).blocks)) == TranslateNewlines(text)
    ensures LineShaped(Texts(TextPdf(text).blocks))
  {
    var ls := Lines(TranslateNewlines(text));
    assert Texts(FlowedBlocks(ls)) == ls;
    LinesConcat(TranslateNewlines(text));
    LinesShape(TranslateNewlines(text));
  }

  method RenderText(text: string) returns (pdf: Pdf)
    ensures pdf == TextPdf(text)
  {
    var fpdf := new Fpdf();
    fpdf.AddPage();
    fpdf.SetFont("Arial", 12);
    var lines := Lines(TranslateNewlines(text));
    for i := 0 to |lines|
      invariant fpdf.pages == 1 && fpdf.font == Some(Font("Arial", 12))
      invariant fpdf.blocks == FlowedBlocks(lines[..i])
    {
      fpdf.MultiCell(lines[i]);
      assert lines[..i + 1] == lines[..i] + [lines[i]];
    }
    assert lines[..|lines|] == lines;
    pdf := fpdf.Output();
  }

  // ---------------------------------------------------------------------------
  // Images
  // ---------------------------------------------------------------------------

  /** Images with an alpha channel, "RGBA" and "LA", are converted to "RGB" before they
      are saved; every other mode is saved as it is. */
  function FlattenMode(mode: string): string
  {
    if mode == "RGBA" || mode == "LA" then "RGB" else mode
  }

  /** Exactly the two alpha modes are changed, both to "RGB"; the mode saved is never an
      alpha mode, and flattening twice is flattening once. */
  lemma FlattenModeSettles(mode: string)
    ensures FlattenMode(mode) != mode <==> mode == "RGBA" || mode == "LA"
    ensures FlattenMode(mode) != mode ==> FlattenMode(mode) == "RGB"
    ensures FlattenMode(mode) != "RGBA" && FlattenMode(mode) != "LA"
    ensures FlattenMode(FlattenMode(mode)) == FlattenMode(mode)
  {
    assert "RGB" != "RGBA" && "RGB" != "LA";
  }

  function ImagePdf(mode: string): Pdf
  {
    ImagePage(FlattenMode(mode))
  }
}
