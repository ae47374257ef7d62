# unifying_files_to_pdf, modelled in Dafny

The script `main.py` converts a list of files to PDF and merges the results into one PDF.

`convert_to_pdf(file_path, output_folder)` chooses a conversion strategy from the file's
lower-cased extension:

- `.docx`: each paragraph goes through `multi_cell`, in Arial 12.
- `.xls` / `.xlsx`: each data row goes through `cell(..., ln=True)`, in Arial 10. The row's
  values are string-coerced and joined with ", ".
- `.txt`: each line of the UTF-8 text goes through `multi_cell`, in Arial 12.
- `.jpg` / `.jpeg` / `.png`: the image is saved as a PDF page. An image in mode `RGBA` or
  `LA` is converted to `RGB` first.
- Anything else raises `ValueError("Formato de arquivo <ext> não suportado.")`.

The output is written to `output_folder/<file name>.pdf`. For an image it is
`output_folder/<stem>.pdf`.

`unify_to_pdf(files, output_pdf)` does the following:

1. Creates `temp_pdfs`.
2. Converts every input in order and appends each PDF produced to a `PdfMerger`.
3. Prints one notice for each input whose conversion raises a `ValueError`, and goes on.
4. Writes the merged PDF.
5. Removes every file in `temp_pdfs`, then the folder.
6. Prints a final notice.

The Dafny model has five modules, one per file.

- `Paths` (`paths.dfy`) models the POSIX `os.path` functions the script calls:
  - `splitext`, `basename` and `join`, built on the `rfind` that `posixpath` uses;
  - `str.lower`, restricted to ASCII letters.

  The script does not call `os.path.dirname`. `Paths.Dirname` and
  `Paths.StripTrailingSlashes` model it anyway, as reference definitions that state what
  "a file directly inside the folder" means.

  It proves how these functions interact: the extension of a path is that of its file
  name; a dot-free suffix after a named stem is the extension; lower-casing commutes with
  taking the extension; joining a plain name keeps it as the final component.
- `Formats` (`formats.dfy`) models classification by extension, the `ValueError` message,
  and the two naming rules.
- `Render` (`render.dfy`) models the FPDF object as a class whose methods append text
  blocks. It also models the three text strategies as loops, each proved equal to a
  specification function. Around them it models:
  - `str` of spreadsheet values and `", ".join`, with a round trip through splitting.
    A row reaches `str` with the frame's common dtype, so an integer in a row that also
    holds a float column prints as a float ("5.0");
  - universal-newline reading and line iteration, whose lines put back together give the
    text;
  - the image mode rule.
- `Conversions` (`convert.dfy`) models `convert_to_pdf` as a pure specification and as a
  method that writes into a `Workspace` class standing for the output folder.
- `Batch` (`batch.dfy`) models `unify_to_pdf`:
  - the `Merger` class;
  - the convert-and-append loop, proved equal to a left-to-right run specification, which
    is in turn proved equal to right-recursive filter-maps;
  - the cleanup loop;
  - the printed notices.

What the libraries read from an input file is a parameter. A `Contents` value gives
paragraph texts, sheet column types and rows, decoded text, an image mode, or the exception the library
raises. A `ValueError` raised by a library is caught by the loop, exactly as the source's
`except ValueError` does. This includes the `UnicodeDecodeError` of a text file that is
not UTF-8. Contents of the wrong kind for the strategy stand for another exception, which
ends the run.

Where the code and its description differ, the model follows the code:

- The docstring of `convert_to_pdf` lists only `.docx`, `.txt`, `.xls` and `.xlsx`, but
  the code also converts the three image extensions (main.py:15 against main.py:50-56).
- `pd.read_excel` takes the first sheet row as column labels, so only the data rows below
  it are rendered (main.py:32-37).
- Only `RGBA` and `LA` are flattened. Other modes with transparency, such as `P` with a
  transparency entry, are saved unchanged (main.py:53-54).
- An exception other than `ValueError` leaves `unify_to_pdf` at once. The merged file is
  then not written, the temporary folder is not cleaned up and no final notice is printed
  (main.py:75-91).
- `os.makedirs(..., exist_ok=True)` keeps files already in `temp_pdfs`. The cleanup loop
  removes those too (main.py:72, 87-89).
- The two naming rules can send two inputs to the same temporary file: the image
  `a.txt.png` and the text file `a.txt` both become `temp_pdfs/a.txt.pdf`
  (`Formats.NamingCollision`). The model takes `append` to read the file at the moment
  it is called (`Batch.Merger.Append`). Under that reading the merged output is still
  right and only the temporary file is overwritten; "## Left out" says when it does not
  hold.

## Model

| member | source | states |
|---|---|---|
| `Paths.LastIndex` | main.py:17-18 | `str.rfind`, as `posixpath` uses it: the position of the last occurrence of a character, or -1 when it does not occur; no later position holds it |
| `Paths.Basename` | main.py:18 | `os.path.basename`: the suffix of the path after its last '/', containing no '/' |
| `Paths.SplitExt` | main.py:17 | `os.path.splitext`: the two parts put together give the path; the extension is empty or a dot followed by neither a dot nor a '/' |
| `Paths.ExtOfSuffix` | main.py:17 | a named file name followed by an extension splits into exactly that name and that extension |
| `Paths.NoExtOfDotName` | main.py:17 | a final component made only of dots ahead of the last dot has no extension, so ".txt" is not a text file |
| `Paths.ExtDecomposes` | main.py:17 | a path with an extension is its root followed by that extension, and the root's final component has a non-dot character |
| `Paths.ExtNamesComponent` | main.py:17 | a path with an extension has a final component with a non-dot character |
| `Paths.NamedExtend` | main.py:55 | appending text without '/' to a named final component keeps it named |
| `Paths.ExtOfBasename` | main.py:55 | the extension of a path equals the extension of its file name |
| `Paths.JoinInside` | main.py:18 | `os.path.join` of a folder and a non-empty name without '/' is the folder, a separator and the name, and the name is the joined path's final component |
| `Paths.DirnameOfJoin` | main.py:18 | for a folder without a trailing '/', the reference `dirname` of the joined path is the folder |
| `Paths.Join` | main.py:18 | definition: `os.path.join(a, b)` for two components; `b` when it is absolute, otherwise `a` with a '/' added unless it is empty or already ends in one, then `b` |
| `Paths.Dirname` | main.py:18 | reference definition of `os.path.dirname`, which the script does not call: the text up to the last '/', without trailing slashes unless it is all slashes |
| `Paths.PdfBelowFolder` | main.py:55 | joining a named stem plus ".pdf" gives a path in the folder whose file name is that name, whose extension is ".pdf" and whose stem is the stem |
| `Paths.StripTrailingSlashes` | main.py:18 | reference definition used by `Dirname`: the result is a prefix that does not end in '/', and only slashes were removed |
| `Paths.Lower` | main.py:17 | ASCII lower-casing keeps the length |
| `Paths.ExtLower` | main.py:17 | taking the extension of the lower-cased path is lower-casing the extension |
| `Paths.LowerIdempotent` | main.py:17 | lower-casing twice is lower-casing once |
| `Formats.LowerExt` | main.py:17 | definition: the extension of the path, lower-cased |
| `Formats.TagOfExtension` | main.py:20-59 | definition: the strategy for a lower-cased extension; `.docx` a document, `.xls` and `.xlsx` a spreadsheet, `.txt` text, `.jpg`, `.jpeg` and `.png` an image, anything else unsupported |
| `Formats.Classify` | main.py:17-59 | definition: the strategy of a path, that of its lower-cased extension |
| `Formats.UnsupportedMessage` | main.py:59 | definition: the `ValueError` message "Formato de arquivo <ext> não suportado." |
| `Formats.OutputName` | main.py:18-55 | definition: the output file name, the input's file name plus ".pdf", or for an image its stem plus ".pdf" |
| `Formats.OutputPath` | main.py:18-55 | definition: `output_file`, the output file name joined to the output folder |
| `Formats.ClassifySupported` | main.py:20-59 | a path is accepted exactly when its lower-cased extension is one of the seven listed |
| `Formats.ClassifyIgnoresCase` | main.py:17 | paths equal up to letter case get the same lower-cased extension and the same strategy |
| `Formats.ClassifyLowered` | main.py:17 | lower-casing a path never changes its strategy |
| `Formats.ClassifyByName` | main.py:17-50 | a named file name followed by an extension gets that extension's strategy, in any case |
| `Formats.HiddenFileUnsupported` | main.py:17-59 | a name whose only non-dot text is its extension gets no extension and is refused |
| `Formats.NoExtensionUnsupported` | main.py:58-59 | a path without an extension is refused |
| `Formats.SupportedDecomposes` | main.py:17-50 | every accepted path is a named root followed by an extension whose lower case is supported |
| `Formats.MessageNamesExtension` | main.py:59 | the `ValueError` message contains the lower-cased extension |
| `Formats.SupportedHasExtension` | main.py:20-50 | an accepted path has a non-empty extension |
| `Formats.NamesWithExtension` | main.py:55 | the file name of a path with an extension is its named stem followed by that extension, and the stem has no '/' |
| `Formats.OutputInsideFolder` | main.py:18-61 | every returned path is a file directly in the output folder whose name ends in ".pdf" and whose extension is ".pdf" |
| `Formats.OutputDirectory` | main.py:18-55 | for a folder such as "temp_pdfs", the directory of every returned path is that folder |
| `Formats.NonImageKeepsFullName` | main.py:18 | for documents, spreadsheets and text files, the output name without ".pdf" is the whole input file name, extension included |
| `Formats.ImageDropsExtension` | main.py:55 | for images, the output name without ".pdf", followed by the input's extension, is the input file name |
| `Formats.BareName` | main.py:18 | a name without '/' is its own file name |
| `Formats.NonImageOutput` | main.py:18 | a non-image file `name` in the working directory is written to `folder/name.pdf` |
| `Formats.ImageOutput` | main.py:55 | an image `stem + ext` in the working directory is written to `folder/stem.pdf` |
| `Formats.NamingCollision` | main.py:18-55 | an image "r.x.png" and a non-image "r.x" are written to the same output path |
| `Render.Fpdf.constructor` | main.py:23 | a new FPDF object has no page, no font and no text |
| `Render.Fpdf.AddPage` | main.py:24 | adds one page and changes nothing else |
| `Render.Fpdf.SetFont` | main.py:25 | sets the font and changes nothing else |
| `Render.Fpdf.MultiCell` | main.py:27 | appends one flowed block with the text, once a font is set |
| `Render.Fpdf.Cell` | main.py:37 | appends one line block with the text, once a font is set |
| `Render.WordPdfKeepsParagraphs` | main.py:22-28 | the document PDF is Arial 12 and holds every paragraph's text, in order, each as a flowed block |
| `Render.WordPdf` | main.py:22-28 | definition: the `.docx` branch's PDF, Arial 12 on the one page `add_page` adds, with one flowed block per paragraph |
| `Render.RenderWord` | main.py:22-28 | the `.docx` branch's loop builds exactly the document PDF specified for the paragraphs |
| `Render.DigitChar` | main.py:37 | a digit's character is a decimal digit with that value |
| `Render.NatToString` | main.py:37 | the numeral of a natural number is non-empty, all decimal digits, without a leading zero |
| `Render.ParseNatToString` | main.py:37 | reading the numeral back gives the number |
| `Render.IntToStringParses` | main.py:37 | `str` of a whole number reads back as that number, with a leading '-' exactly for negatives |
| `Render.IntToString` | main.py:37 | definition: `str` of a whole number, a '-' followed by the numeral of its magnitude for negatives |
| `Render.RowType` | main.py:36 | definition: the dtype of the series `iterrows` yields, the columns' common type: integer if all columns are integer, boolean if all are boolean, float if all are integer or float, object otherwise |
| `Render.AsFloat` | main.py:36-37 | definition: a value reaches `str` as a float when its column is a float column or the whole row became floats |
| `Render.CellText` | main.py:37 | definition: `str` of one value of `row.values`; text as it is, an integral number with ".0" when it reaches `str` as a float, a float's own text, "True" or "False", and "nan" for an empty cell |
| `Render.RowValueTexts` | main.py:37 | definition: `map(str, row.values)`, one text per value, in column order, each the `str` of that value under the row's dtype |
| `Render.RowTypeFloat` | main.py:36 | a row becomes floats if and only if every column is an integer or float column and at least one is a float column |
| `Render.IntegerInFloatRow` | main.py:36-37 | in a row turned into floats, an integer prints as its numeral followed by ".0" |
| `Render.IntegerInMixedRow` | main.py:36-37 | in a row that has an object column, an integer in an integer column prints as a plain numeral |
| `Render.JoinRow` | main.py:37 | definition: `", ".join` of the texts |
| `Render.RowText` | main.py:37 | definition: the line for a data row, `", ".join(map(str, row.values))` |
| `Render.FloatRowExample` | main.py:32-37 | a data row holding 5 and an empty cell, under an integer and a float column, prints as "5.0, nan" |
| `Render.Split` | main.py:37 | reference definition: `str.split(", ")`, which the script does not call, as the inverse of the join; cutting at ", " gives at least one piece |
| `Render.SplitNoSeparator` | main.py:37 | text without ", " is not cut |
| `Render.SplitAtSeparator` | main.py:37 | a cell without ", " followed by ", " is cut off as one piece |
| `Render.SplitJoinRow` | main.py:37 | a joined row cuts back into its cell texts when no cell text contains ", " |
| `Render.CellTextWithoutSeparator` | main.py:37 | integral numbers, printed as integers or as floats, booleans and empty cells never print with ", " |
| `Render.SheetPdfLines` | main.py:32-38 | for a data row that has a value and none of whose value texts contains ", ": there is one line per data row, that row's line is a `cell` line, and it cuts back into the texts `str` gives the row's values |
| `Render.RenderSheet` | main.py:32-38 | the spreadsheet branch's loop builds exactly the sheet PDF specified for the column types and rows |
| `Render.RowLines` | main.py:36-37 | definition: one `cell` line per data row, in row order, each the row's text |
| `Render.SheetPdf` | main.py:32-38 | definition: the spreadsheet branch's PDF, Arial 10 on the one page `add_page` adds, with one line per data row |
| `Render.TranslateNewlines` | main.py:45 | text read in text mode contains no '\r' |
| `Render.TranslateKeepsPlainText` | main.py:45 | text without '\r' is read unchanged |
| `Render.LineEnd` | main.py:46 | the first line ends just after the first '\n', or at the end of the text, with no '\n' before |
| `Render.LinesConcat` | main.py:46 | the lines of a file put back together give its text |
| `Render.LinesShape` | main.py:46 | no line is empty, '\n' occurs only at a line's end, and every line but the last ends in '\n' |
| `Render.Lines` | main.py:46 | definition: iterating over a text file, each line running up to and including its '\n', the last one possibly without |
| `Render.TextPdf` | main.py:40-48 | definition: the `.txt` branch's PDF, Arial 12 on the one page `add_page` adds, with one flowed block per line of the translated text |
| `Render.TextPdfKeepsContent` | main.py:40-48 | the text PDF holds exactly the file's text with its newlines translated, one well-formed line per block |
| `Render.RenderText` | main.py:40-48 | the `.txt` branch's loop builds exactly the text PDF specified for the file's text |
| `Render.FlattenModeSettles` | main.py:53-54 | exactly `RGBA` and `LA` are changed, both to `RGB`; the saved mode never has alpha; flattening is idempotent |
| `Render.FlattenMode` | main.py:53-54 | definition: `RGBA` and `LA` become `RGB`, every other mode stays |
| `Render.ImagePdf` | main.py:53-56 | definition: the image branch's PDF, one image page in the flattened mode |
| `Conversions.Fits` | main.py:22-52 | definition: the library of the strategy reads the contents; paragraphs for a document, a sheet for a spreadsheet, decoded text for a text file, a colour mode for an image |
| `Conversions.Rendered` | main.py:20-56 | definition: the PDF the strategy's branch renders from contents it reads |
| `Conversions.Convert` | main.py:12-61 | definition: the outcome of `convert_to_pdf`; an unsupported extension raises the extension message, a library's exception is raised as it is, and otherwise the branch's PDF is returned under the output path |
| `Conversions.UnsupportedRefused` | main.py:58-59 | an unsupported extension is refused, whatever the file holds, with a message naming the extension |
| `Conversions.ConvertedExactly` | main.py:20-59 | a file is converted if and only if its extension is supported and its library reads it |
| `Conversions.ConvertedOutput` | main.py:18-61 | a converted file had a supported extension, and the returned path is its output path |
| `Conversions.ConvertedName` | main.py:18-61 | the returned path lies directly in the output folder, follows the strategy's naming rule and has extension ".pdf" |
| `Conversions.ConvertedPdf` | main.py:20-56 | the PDF written is what the strategy renders from the file's contents |
| `Conversions.RenderedKind` | main.py:20-56 | each strategy writes an image page without alpha, or a document in Arial on the one page added with `add_page`, of size 10 for sheets and 12 otherwise |
| `Conversions.ConvertedKind` | main.py:20-56 | a converted image is a page without alpha; any other converted file is a document in Arial on the one page added with `add_page`, of the strategy's size |
| `Conversions.Readable` | main.py:20-56 | definition: the library of a supported file's strategy reads it |
| `Conversions.ReadableOutcome` | main.py:17-61 | a readable file is converted to its output path when supported, and refused with the extension message otherwise |
| `Conversions.Workspace.constructor` | main.py:71 | a folder in a given state; a missing folder holds no file |
| `Conversions.Workspace.MakeDirs` | main.py:72 | the folder exists afterwards; files already in it stay |
| `Conversions.Workspace.Save` | main.py:28 | writing a PDF replaces any file of that name and leaves the others |
| `Conversions.Workspace.Remove` | main.py:88 | removes exactly one file |
| `Conversions.Workspace.RemoveDir` | main.py:89 | removes the folder, which must be empty |
| `Conversions.RenderAs` | main.py:20-56 | the branch for a strategy builds the PDF that strategy specifies |
| `Conversions.ConvertToPdf` | main.py:12-61 | returns the specified outcome, and writes the PDF into the folder exactly when the file is converted |
| `Batch.TextOutputExample` | main.py:18 | in `temp_pdfs`, the text file "a.txt" becomes "temp_pdfs/a.txt.pdf" |
| `Batch.FailureNotice` | main.py:80 | definition: the line printed for an input whose conversion raised a `ValueError`, naming the input and the message |
| `Batch.DoneNotice` | main.py:91 | definition: the final line, naming the merged PDF's path |
| `Batch.Merger.constructor` | main.py:73 | a new merger holds nothing |
| `Batch.Merger.Append` | main.py:78 | appends the file's content as it is when `append` is called |
| `Batch.Step` | main.py:76-80 | definition: one pass of the loop; a converted file is appended and its PDF stays in the folder, a `ValueError` adds its notice, any other exception stops the run, and after that nothing changes |
| `Batch.RunEvents` | main.py:75-80 | definition: the passes over the inputs in order, from an empty merger and the files already in the folder |
| `Batch.Start` | main.py:72 | definition: the files in the temporary folder after `os.makedirs(..., exist_ok=True)`; those already there, or none |
| `Batch.Accepted` | main.py:75-78 | reference definition: the PDFs produced, in input order |
| `Batch.Failures` | main.py:75-80 | reference definition: one notice per input refused with a `ValueError`, in input order |
| `Batch.AcceptedAppend` | main.py:75-80 | the filter-maps of the PDFs produced and of the notices extend by one input at the end |
| `Batch.RunWithoutAbort` | main.py:75-80 | without an escaping exception, the merger gets exactly the PDFs produced and the notices are exactly those of the refused inputs, both in input order |
| `Batch.AbortStays` | main.py:75-80 | after an escaping exception, later inputs change nothing |
| `Batch.FirstAbortStops` | main.py:75-80 | the first input raising something other than `ValueError` ends the run with what came before it |
| `Batch.OneOutcomeEach` | main.py:75-80 | without an escaping exception, each input yields exactly one PDF or one notice |
| `Batch.SupportedOutputs` | main.py:75-78 | reference definition: the output paths of the inputs with a supported extension, in input order |
| `Batch.UnsupportedNotices` | main.py:75-80 | reference definition: one unsupported-extension notice per input with an unsupported extension, in input order |
| `Batch.EventsTail` | main.py:75 | the conversions of the later inputs are the later conversions |
| `Batch.AllReadableTail` | main.py:75 | readability of a list is that of its head and its tail |
| `Batch.ReadableEvent` | main.py:76-80 | a readable input adds its output path to the merger if supported, and otherwise exactly one unsupported-extension notice |
| `Batch.PartPathsAppend` | main.py:78 | the paths of appended parts concatenate |
| `Batch.NoAbortCons` | main.py:75-80 | no exception escapes a run when none escapes its first pass or the later ones |
| `Batch.ReadableEvents` | main.py:75-80 | for readable inputs nothing aborts, the appended paths are the supported inputs mapped through naming, and the notices are one per unsupported input |
| `Batch.UnifyAppendsSupported` | main.py:75-80 | for readable inputs the run does not abort, appends exactly the supported inputs in order under their output names, and prints one notice per unsupported input |
| `Batch.Process` | main.py:76-80 | one pass of the loop changes the merger, notices and folder exactly as one step of the run specification |
| `Batch.ConvertAll` | main.py:75-80 | the loop ends in exactly the state the run specification gives for all inputs |
| `Batch.RemoveTemp` | main.py:87-89 | afterwards no file remains and the folder is gone |
| `Batch.Unify` | main.py:64-91 | the merged parts, the printed lines and the final folder state are those of the run specification; on success the folder is removed and the final notice follows the failure notices |

## Left out

- The libraries' internals are a parameter: the `Contents` of an input (python-docx,
  pandas, Pillow).
- FPDF's layout is not modelled: line wrapping inside `multi_cell`, automatic page breaks,
  cell widths and heights, and the bytes of the written PDF. A document counts only the
  one page added with `add_page`.
- The core font Arial encodes only Latin-1. PyFPDF 1.7 encodes the page text when
  `pdf.output` runs (main.py:28, 38, 48). For a character outside Latin-1, such as a curly
  apostrophe (U+2019) in a `.docx` paragraph, it raises a `UnicodeEncodeError`, which is
  a `ValueError`. The script then prints a notice for that input and skips it
  (main.py:79-80). The model does not model this error: it converts and appends such an
  input. So `Batch.UnifyAppendsSupported` does not describe inputs with such
  characters. Under fpdf2, the error would instead end the run.
- Pillow's image data and its PDF writer are not modelled beyond the colour mode. Modes
  the writer cannot save are not rejected.
- A spreadsheet's column types are part of its `Contents`, as pandas infers them; the
  inference itself is not modelled. A float with a fractional part is given by the text
  `str` prints for it (`Cell.Real`). Date and time cells and pandas' nullable and
  categorical dtypes are not modelled.
- Render.CellText: an integral value that reaches `str` as a float prints as its numeral
  followed by ".0". Python prints floats of 10^16 or more in exponent form ("1e+16"), and
  integers beyond 2^53 lose precision as floats; neither is modelled.
- The bytes of the merged PDF and its page count are not modelled. `merger.write` is the
  returned sequence of parts, and `merger.close` does nothing.
- `print` is modelled as the returned list of printed lines.
- Batch.Merger.Append: reading the file's content at the moment `append` is called is a
  modelling assumption about PyPDF2. It holds for versions whose `PdfMerger` copies a
  path's bytes into memory at `append`. A merger that keeps the file open reads the page
  content at `merger.write` (main.py:83). By then a naming collision may have overwritten
  the file, and the merged output then holds the later PDF twice.
- Batch.Unify: the merged file written by `merger.write(output_pdf)` is not modelled as a
  file in the folder. When `output_pdf` lies inside `temp_pdfs` (say
  `temp_pdfs/out.pdf`), the cleanup deletes the merged file too. The model still returns
  the merged parts and prints the final notice in that case.
- Filesystem failures are not modelled: permissions, `temp_pdfs` existing as a plain
  file, and a subdirectory inside `temp_pdfs` that `os.remove` cannot delete.
- The listing of `temp_pdfs` is the set of stored file paths, so `os.path.join` in the
  cleanup loop is not modelled.
- `Conversions.ConvertToPdf` requires the output folder to exist. `convert_to_pdf` is only
  called after `os.makedirs`, and a missing folder (an `OSError` on writing) is not
  modelled.
- `Paths.Lower` lower-cases ASCII letters only. Python's `str.lower` also maps other
  letters. The only ones that become ASCII are 'K' (U+212A) and 'İ' (U+0130). Neither
  can produce one of the seven extensions, so classification is unaffected. Only the
  text of the refusal message can differ.
- Path operations follow POSIX `posixpath`. Windows path rules are not modelled.
- Exceptions raised by `merger.append`, by `merger.write` or by the cleanup are not
  modelled. Interruption is not modelled either.
- The example invocation at module level (main.py:94-103) is left out. Its inputs are
  external files.
