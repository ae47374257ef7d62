/**
  The part of `convert_to_pdf` (main.py) that the script decides by itself: which
  conversion strategy a path gets from its lower-cased extension, the `ValueError`
  message for any other extension, and the name of the PDF each strategy writes.
 */
module Formats {
  import opened Paths

  /** The conversion strategy chosen for an input file. */
  datatype FormatTag = WordDocument | Spreadsheet | PlainText | Image | Unsupported

  /** The extensions the if/elif chain of `convert_to_pdf` accepts. */
  const SupportedExtensions: set<string> := {".docx", ".xls", ".xlsx", ".txt", ".jpg", ".jpeg", ".png"}

  /** The strategy for an already lower-cased extension, in the order of the chain. */
  function TagOfExtension(ext: string): FormatTag
  {
    if ext == ".docx" then WordDocument
    else if ext == ".xls" || ext == ".xlsx" then Spreadsheet
    else if ext == ".txt" then PlainText
    else if ext == ".jpg" || ext == ".jpeg" || ext == ".png" then Image
    else Unsupported
  }

  /** The extension of the path, lower-cased: what the format is decided on. */
  function LowerExt(path: string): string
  {
    Lower(Ext(path))
  }

  function Classify(path: string): FormatTag
  {
    TagOfExtension(LowerExt(path))
  }

  /** The text of the `ValueError` raised for an unsupported extension. */
  function UnsupportedMessage(ext: string): string
  {
    "Formato de arquivo " + ext + " não suportado."
  }

  /** `t` occurs in `s`. */
  predicate Contains(s: string, t: string)
  {
    exists i :: 0 <= i <= |s| - |t| && OccursAt(s, t, i)
  }

  predicate OccursAt(s: string, t: string, i: int)
    requires 0 <= i <= |s| - |t|
  {
    s[i..i + |t|] == t
  }

  /** The name of the PDF written for `path`: images drop their extension, every other
      strategy appends ".pdf" to the whole file name. */
  function OutputName(path: string, tag: FormatTag): string
  {
    if tag == Image then Root(Basename(path)) + ".pdf" else Basename(path) + ".pdf"
  }

  /** `output_file`, the path `convert_to_pdf` writes and returns. */
  function OutputPath(path: string, folder: string, tag: FormatTag): string
  {
    Join(folder, OutputName(path, tag))
  }

  // ---------------------------------------------------------------------------
  // Classification
  // ---------------------------------------------------------------------------

  /** Exactly the seven listed extensions are accepted, whatever the case of the path. */
  lemma ClassifySupported(path: string)
    ensures Classify(path) != Unsupported <==> LowerExt(path) in SupportedExtensions
  {
  }

  /** Paths that agree up to the case of their letters get the same strategy. */
  lemma ClassifyIgnoresCase(p: string, q: string)
    requires Lower(p) == Lower(q)
    ensures LowerExt(p) == LowerExt(q)
    ensures Classify(p) == Classify(q)
  {
    ExtLower(p);
    ExtLower(q);
  }

  /** Lower-casing the path never changes its strategy. */
  lemma ClassifyLowered(path: string)
    ensures Classify(Lower(path)) == Classify(path)
  {
    LowerIdempotent(path);
    ClassifyIgnoresCase(Lower(path), path);
  }

  /** A file name with a non-dot character followed by one of the extensions, in any case,
      gets that extension's strategy. */
  lemma ClassifyByName(r: string, e: string)
    requires NamedComponent(r)
    requires IsExtension(e)
    ensures LowerExt(r + e) == Lower(e)
    ensures Classify(r + e) == TagOfExtension(Lower(e))
  {
    ExtOfSuffix(r, e);
  }

  /** Leading dots do not start an extension: ".txt", "dir/.png" and the like get no
      extension and are refused. */
  lemma HiddenFileUnsupported(r: string, e: string)
    requires !NamedComponent(r)
    requires IsExtension(e)
    ensures LowerExt(r + e) == ""
    ensures Classify(r + e) == Unsupported
  {
    NoExtOfDotName(r, e);
  }

  /** A path without an extension is refused. */
  lemma NoExtensionUnsupported(path: string)
    requires Ext(path) == ""
    ensures Classify(path) == Unsupported
  {
  }

  /** Every accepted path is a named file followed by one of the seven extensions. */
  lemma SupportedDecomposes(path: string)
    requires Classify(path) != Unsupported
    ensures path == Root(path) + Ext(path)
    ensures NamedComponent(Root(path)) && IsExtension(Ext(path))
    ensures Lower(Ext(path)) in SupportedExtensions
  {
    ExtDecomposes(path);
  }

  /** The message of the `ValueError` names the (lower-cased) extension it refuses. */
  lemma MessageNamesExtension(path: string)
    ensures Contains(UnsupportedMessage(LowerExt(path)), LowerExt(path))
  {
    var e := LowerExt(path);
    var m := UnsupportedMessage(e);
    assert OccursAt(m, e, 19);
  }

  // ---------------------------------------------------------------------------
  // Output naming
  // ---------------------------------------------------------------------------

  /** An accepted path has an extension. */
  lemma SupportedHasExtension(path: string)
    requires Classify(path) != Unsupported
    ensures Ext(path) != ""
  {
  }

  /** A file name with an extension has a non-dot character, and so has its stem. */
  lemma NamesWithExtension(path: string)
    requires Ext(path) != ""
    ensures NamedComponent(Basename(path))
    ensures NamedComponent(Root(Basename(path))) && '/' !in Root(Basename(path))
    ensures Ext(Basename(path)) == Ext(path)
    ensures Basename(path) == Root(Basename(path)) + Ext(path)
  {
    var b := Basename(path);
    ExtOfBasename(path);
    ExtNamesComponent(b);
    ExtDecomposes(b);
    assert Root(b) == b[..|Root(b)|];
  }

  /** The file name an accepted path keeps in its output name: the whole name, or for an
      image its stem. */
  function KeptName(path: string, tag: FormatTag): string
  {
    if tag == Image then Root(Basename(path)) else Basename(path)
  }

  /** Every returned path names a file directly inside the output folder whose name ends
      in ".pdf", and whose extension as `splitext` sees it is ".pdf". */
  lemma OutputInsideFolder(path: string, folder: string)
    requires Classify(path) != Unsupported
    ensures var name := OutputName(path, Classify(path));
      && '/' !in name
      && OutputPath(path, folder, Classify(path)) == DirPrefix(folder) + name
      && Basename(OutputPath(path, folder, Classify(path))) == name
      && |name| >= 4 && name[|name| - 4..] == ".pdf"
      && Ext(OutputPath(path, folder, Classify(path))) == ".pdf"
  {
    var tag := Classify(path);
    SupportedHasExtension(path);
    NamesWithExtension(path);
    var kept := KeptName(path, tag);
    assert OutputName(path, tag) == kept + ".pdf";
    PdfBelowFolder(folder, kept);
  }

  /** With the folder written without a trailing '/', as "temp_pdfs" is, the directory of
      every returned path is that folder. */
  lemma OutputDirectory(path: string, folder: string)
    requires Classify(path) != Unsupported
    requires folder != [] && folder[|folder| - 1] != '/'
    ensures Dirname(OutputPath(path, folder, Classify(path))) == folder
  {
    OutputInsideFolder(path, folder);
    DirnameOfJoin(folder, OutputName(path, Classify(path)));
  }

  /** Documents, spreadsheets and text files keep their whole name: taking ".pdf" off the
      output name gives back the input's file name, extension included. */
  lemma NonImageKeepsFullName(path: string, folder: string)
    requires Classify(path) != Unsupported && Classify(path) != Image
    ensures Root(Basename(OutputPath(path, folder, Classify(path)))) == Basename(path)
  {
    SupportedHasExtension(path);
    NamesWithExtension(path);
    PdfBelowFolder(folder, Basename(path));
  }

  /** Images keep only their stem: the output name without ".pdf", followed by the input's
      extension, gives back the input's file name. */
  lemma ImageDropsExtension(path: string, folder: string)
    requires Classify(path) == Image
    ensures Root(Basename(OutputPath(path, folder, Image))) + Ext(path) == Basename(path)
  {
    SupportedHasExtension(path);
    NamesWithExtension(path);
    PdfBelowFolder(folder, Root(Basename(path)));
  }

  /** A file name given without a directory is its own final component. */
  lemma BareName(name: string)
    requires '/' !in name
    ensures Basename(name) == name
  {
    assert LastIndex(name, '/') == -1;
  }

  /** A document, spreadsheet or text file named `name` in the working directory is
      written to `folder/name.pdf`. */
  lemma NonImageOutput(name: string, folder: string, tag: FormatTag)
    requires '/' !in name
    requires tag != Image
    ensures OutputPath(name, folder, tag) == DirPrefix(folder) + (name + ".pdf")
  {
    BareName(name);
    assert OutputName(name, tag) == name + ".pdf";
    JoinInside(folder, name + ".pdf");
  }

  /** An image named `stem + e` in the working directory is written to `folder/stem.pdf`. */
  lemma ImageOutput(stem: string, e: string, folder: string)
    requires '/' !in stem && NamedComponent(stem)
    requires IsExtension(e)
    ensures OutputPath(stem + e, folder, Image) == DirPrefix(folder) + (stem + ".pdf")
  {
    BareName(stem + e);
    ExtOfSuffix(stem, e);
    assert OutputName(stem + e, Image) == stem + ".pdf";
    JoinInside(folder, stem + ".pdf");
  }

  /** The two naming rules can meet: an image "r.x.png" and a file "r.x" are both written
      to the same `folder/r.x.pdf`, whatever their extensions. */
  lemma NamingCollision(r: string, e1: string, e2: string, folder: string, tag: FormatTag)
    requires '/' !in r && NamedComponent(r)
    requires IsExtension(e1) && IsExtension(e2)
    requires tag != Image
    ensures OutputPath(r + e1 + e2, folder, Image) == OutputPath(r + e1, folder, tag)
  {
    NamedExtend(r, e1);
    ImageOutput(r + e1, e2, folder);
    NonImageOutput(r + e1, folder, tag);
  }
}
