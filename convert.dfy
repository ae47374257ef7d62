/**
  `convert_to_pdf` (main.py) as a whole: classify the path, compute the output path,
  read the input with the strategy's library, render it, and write the PDF into the
  output folder. What the libraries read from an input file is given as data, together
  with the exception a library raises when it cannot read it.
 */
module Conversions {
  import opened Paths
  import opened Formats
  import opened Render

  /** An exception a reading library raises: a `ValueError` (which includes the
      `UnicodeDecodeError` of a text file that is not UTF-8) is caught by the batch loop,
      any other exception is not. */
  datatype LibraryError = RaisesValueError(message: string) | RaisesOther

  /** What the library for a file's strategy reads from it: the paragraph texts of a
      document, the column labels, column types and data rows of a workbook's first sheet,
      the decoded text of a text file, the colour mode of an image, or the exception raised
      for a file the library rejects. */
  datatype Contents =
    | Paragraphs(paragraphs: seq<string>)
    | Table(labels: seq<Cell>, columns: seq<ColumnType>, rows: seq<seq<Cell>>)
    | Decoded(text: string)
    | Bitmap(mode: string)
    | Unreadable(error: LibraryError)

  datatype InputFile = InputFile(path: string, contents: Contents)

  /** How one call of `convert_to_pdf` ends: it returns the path it wrote, raises a
      `ValueError` with a message, or raises some other exception. */
  datatype Conversion = Converted(output: string, pdf: Pdf) | Refused(message: string) | Aborted

  /** The contents fit the strategy: the library for that strategy reads them. */
  predicate Fits(tag: FormatTag, contents: Contents)
  {
    match tag
    case WordDocument => contents.Paragraphs?
    case Spreadsheet => contents.Table?
    case PlainText => contents.Decoded?
    case Image => contents.Bitmap?
    case Unsupported => false
  }

  /** The PDF the strategy renders from contents that fit it. */
  function Rendered(tag: FormatTag, contents: Contents): Pdf
    requires Fits(tag, contents)
  {
    match contents
    case Paragraphs(ps) => WordPdf(ps)
    case Table(_, columns, rows) => SheetPdf(columns, rows)
    case Decoded(t) => TextPdf(t)
    case Bitmap(m) => ImagePdf(m)
  }

  /** The outcome of `convert_to_pdf(f.path, folder)`. An unsupported extension is refused
      before the file is opened; a file its library cannot read raises that library's
      exception; a file whose contents its library does not recognise raises an exception
      that is not a `ValueError`. */
  function Convert(f: InputFile, folder: string): Conversion
  {
    var tag := Classify(f.path);
    if tag == Unsupported then Refused(UnsupportedMessage(LowerExt(f.path)))
    else if f.contents.Unreadable? then
      (if f.contents.error.RaisesValueError? then Refused(f.contents.error.message) else Aborted)
    else if !Fits(tag, f.contents) then Aborted
    else Converted(OutputPath(f.path, folder, tag), Rendered(tag, f.contents))
  }

  /** An unsupported extension is refused whatever the file holds, with the message that
      names the lower-cased extension. */
  lemma UnsupportedRefused(f: InputFile, folder: string)
    requires Classify(f.path) == Unsupported
    ensures Convert(f, folder) == Refused(UnsupportedMessage(LowerExt(f.path)))
    ensures Contains(Convert(f, folder).message, LowerExt(f.path))
  {
    MessageNamesExtension(f.path);
  }

  /** A file is converted exactly when its extension is supported and its library reads
      contents of the right kind from it. */
  lemma ConvertedExactly(f: InputFile, folder: string)
    ensures Convert(f, folder).Converted? <==>
      Classify(f.path) != Unsupported && Fits(Classify(f.path), f.contents)
  {
  }

  /** A converted file had a supported extension, and the path returned is its output
      path. */
  lemma ConvertedOutput(f: InputFile, folder: string)
    requires Convert(f, folder).Converted?
    ensures Classify(f.path) != Unsupported
    ensures Convert(f, folder).output == OutputPath(f.path, folder, Classify(f.path))
  {
    ConvertedPdf(f, folder);
    assert !f.contents.Unreadable?;
  }

  /** The path returned names a PDF directly inside the output folder, named by the
      strategy's naming rule. */
  lemma ConvertedName(f: InputFile, folder: string)
    requires Convert(f, folder).Converted?
    ensures var c := Convert(f, folder);
      && Classify(f.path) != Unsupported
      && c.output == OutputPath(f.path, folder, Classify(f.path))
      && c.output == DirPrefix(folder) + OutputName(f.path, Classify(f.path))
      && Ext(c.output) == ".pdf"
  {
    ConvertedOutput(f, folder);
    OutputInsideFolder(f.path, folder);
  }

  /** A converted file's contents fit its strategy, and the PDF is what the strategy renders
      from them. */
  lemma ConvertedPdf(f: InputFile, folder: string)
    requires Convert(f, folder).Converted?
    ensures Classify(f.path) != Unsupported && Fits(Classify(f.path), f.contents)
    ensures Convert(f, folder).pdf == Rendered(Classify(f.path), f.contents)
  {
  }

  /** What each strategy writes: one image page in a mode without alpha channel, or a
      document with the one page `add_page` adds, in Arial. */
  lemma RenderedKind(tag: FormatTag, contents: Contents)
    requires Fits(tag, contents)
    ensures var pdf := Rendered(tag, contents);
      if tag == Image then
        pdf.ImagePage? && pdf.mode != "RGBA" && pdf.mode != "LA"
      else
        pdf.Document? && pdf.pages == 1 && pdf.font.family == "Arial"
        && pdf.font.size == (if tag == Spreadsheet then 10 else 12)
  {
    if contents.Bitmap? {
      FlattenModeSettles(contents.mode);
    }
  }

  /** An image is written as one page in a mode without alpha channel; the other strategies
      write a document with the one page `add_page` adds, in Arial at 10 points for
      spreadsheets and 12 otherwise. */
  lemma ConvertedKind(f: InputFile, folder: string)
    requires Convert(f, folder).Converted?
    ensures var pdf := Convert(f, folder).pdf;
      if Classify(f.path) == Image then
        pdf.ImagePage? && pdf.mode != "RGBA" && pdf.mode != "LA"
      else
        pdf.Document? && pdf.pages == 1 && pdf.font.family == "Arial"
        && pdf.font.size == (if Classify(f.path) == Spreadsheet then 10 else 12)
  {
    ConvertedPdf(f, folder);
    RenderedKind(Classify(f.path), f.contents);
  }

  /** The file's library reads it, if its extension is supported. */
  predicate Readable(f: InputFile)
  {
    Classify(f.path) != Unsupported ==> Fits(Classify(f.path), f.contents)
  }

  /** A readable file is converted to its output path when its extension is supported, and
      refused with the unsupported-extension message otherwise. */
  lemma ReadableOutcome(f: InputFile, folder: string)
    requires Readable(f)
    ensures Classify(f.path) != Unsupported ==>
      Convert(f, folder).Converted? && Convert(f, folder).output == OutputPath(f.path, folder, Classify(f.path))
    ensures Classify(f.path) == Unsupported ==>
      Convert(f, folder) == Refused(UnsupportedMessage(LowerExt(f.path)))
  {
  }

  /** The output folder: whether it exists, and the PDF files in it by path. */
  class Workspace {
    var present: bool
    var files: map<string, Pdf>

    constructor (present: bool, files: map<string, Pdf>)
      requires present || files == map[]
      ensures this.present == present && this.files == files
    {
      this.present := present;
      this.files := files;
    }

    /** `os.makedirs(folder, exist_ok=True)`: files already there stay. */
    method MakeDirs()
      modifies this
      ensures present && files == (if old(present) then old(files) else map[])
    {
      if !present {
        files := map[];
      }
      present := true;
    }

    /** Writing a PDF replaces any file of the same name. */
    method Save(path: string, pdf: Pdf)
      requires present
      modifies this
      ensures present && files == old(files)[path := pdf]
    {
      files := files[path := pdf];
    }

    /** `os.remove(path)` */
    method Remove(path: string)
      requires present && path in files
      modifies this
      ensures present && files == old(files) - {path}
    {
      files := files - {path};
    }

    /** `os.rmdir(folder)`: only an empty folder can be removed. */
    method RemoveDir()
      requires present && files == map[]
      modifies this
      ensures !present && files == map[]
    {
      present := false;
    }
  }

  /** The branch of `convert_to_pdf` for the strategy, up to writing the file. */
  method RenderAs(tag: FormatTag, contents: Contents) returns (pdf: Pdf)
    requires Fits(tag, contents)
    ensures pdf == Rendered(tag, contents)
  {
    match contents
    case Paragraphs(ps) => pdf := RenderWord(ps);
    case Table(_, columns, rows) => pdf := RenderSheet(columns, rows);
    case Decoded(t) => pdf := RenderText(t);
    case Bitmap(m) => pdf := ImagePdf(m);
  }

  /** `convert_to_pdf(f.path, folder)` run against the output folder `ws`. */
  method ConvertToPdf(f: InputFile, folder: string, ws: Workspace) returns (c: Conversion)
    requires ws.present
    modifies ws
    ensures c == Convert(f, folder)
    ensures ws.present
    ensures ws.files == if c.Converted? then old(ws.files)[c.output := c.pdf] else old(ws.files)
  {
    var tag := Classify(f.path);
    var output := OutputPath(f.path, folder, tag);
    if tag == Unsupported {
      UnsupportedRefused(f, folder);
      return Refused(UnsupportedMessage(LowerExt(f.path)));
    }
    if f.contents.Unreadable? {
      if f.contents.error.RaisesValueError? {
        return Refused(f.contents.error.message);
      }
      return Aborted;
    }
    if !Fits(tag, f.contents) {
      return Aborted;
    }
    var pdf := RenderAs(tag, f.contents);
    ws.Save(output, pdf);
    c := Converted(output, pdf);
    ConvertedExactly(f, folder);
    ConvertedOutput(f, folder);
    ConvertedPdf(f, folder);
  }
}
