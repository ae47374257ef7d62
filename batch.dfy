/**
  `unify_to_pdf` (main.py): convert every input into the temporary folder, append each
  PDF produced to a `PdfMerger`, report each refused input, write the merged PDF, then
  empty and remove the temporary folder.
 */
module Batch {
  import opened Paths
  import opened Formats
  import opened Render
  import opened Conversions

  const TempFolder := "temp_pdfs"

  /** In the temporary folder, the text file "a.txt" is converted to "temp_pdfs/a.txt.pdf". */
  lemma TextOutputExample()
    ensures OutputPath("a.txt", TempFolder, PlainText) == "temp_pdfs/a.txt.pdf"
  {
    calc {
      OutputPath("a.txt", TempFolder, PlainText);
      { NonImageOutput("a.txt", TempFolder, PlainText); }
      DirPrefix(TempFolder) + ("a.txt" + ".pdf");
      { assert DirPrefix(TempFolder) == "temp_pdfs/"; }
      "temp_pdfs/a.txt.pdf";
    }
  }

  /** The line printed for an input whose conversion raised a `ValueError`. */
  function FailureNotice(file: string, message: string): string
  {
    "Erro ao processar arquivo " + file + ": " + message
  }

  /** The line printed once the merged PDF is written. */
  function DoneNotice(output: string): string
  {
    "PDF unificado salvo em: " + output
  }

  /** A PDF handed to the merger: the path appended and the content read from it then. */
  datatype Part = Part(path: string, pdf: Pdf)

  /** A `PdfMerger`: the PDFs appended so far, in order. */
  class Merger {
    var parts: seq<Part>

    constructor ()
      ensures parts == []
    {
      parts := [];
    }

    /** `merger.append(path)`, taken to read the file when it is called: a file written
        again later does not change what was appended. */
    method Append(path: string, ws: Workspace)
      requires path in ws.files
      modifies this
      ensures parts == old(parts) + [Part(path, ws.files[path])]
    {
      parts := parts + [Part(path, ws.files[path])];
    }
  }

  /** One pass of the loop: the input's name and how its conversion ended. */
  datatype Event = Event(file: string, conversion: Conversion)

  /** The state of `unify_to_pdf` after some passes: what the merger holds, the lines
      printed, whether an exception other than `ValueError` escaped, and the files in the
      temporary folder. */
  datatype Run = Run(parts: seq<Part>, notices: seq<string>, aborted: bool, written: map<string, Pdf>)

  /** One pass: append the PDF produced, print the notice for a `ValueError`, or stop. */
  function Step(r: Run, e: Event): Run
  {
    if r.aborted then r
    else
      match e.conversion
      case Converted(out, pdf) => r.(parts := r.parts + [Part(out, pdf)], written := r.written[out := pdf])
      case Refused(m) => r.(notices := r.notices + [FailureNotice(e.file, m)])
      case Aborted => r.(aborted := true)
  }

  /** The passes in input order, from a temporary folder holding `start`. */
  function RunEvents(es: seq<Event>, start: map<string, Pdf>): Run
  {
    if es == [] then Run([], [], false, start)
    else Step(RunEvents(es[..|es| - 1], start), es[|es| - 1])
  }

  /** The files in the temporary folder once `os.makedirs(..., exist_ok=True)` has run. */
  function Start(present: bool, files: map<string, Pdf>): map<string, Pdf>
  {
    if present then files else map[]
  }

  function Events(files: seq<InputFile>): (es: seq<Event>)
    ensures |es| == |files|
    ensures forall i :: 0 <= i < |files| ==> es[i] == Event(files[i].path, Convert(files[i], TempFolder))
  {
    seq(|files|, i requires 0 <= i < |files| => Event(files[i].path, Convert(files[i], TempFolder)))
  }

  // ---------------------------------------------------------------------------
  // Reference definitions: the filter-maps the loop computes
  // ---------------------------------------------------------------------------

  predicate NoAbort(es: seq<Event>)
  {
    forall i :: 0 <= i < |es| ==> !es[i].conversion.Aborted?
  }

  function Taken(e: Event): seq<Part>
  {
    if e.conversion.Converted? then [Part(e.conversion.output, e.conversion.pdf)] else []
  }

  function Reported(e: Event): seq<string>
  {
    if e.conversion.Refused? then [FailureNotice(e.file, e.conversion.message)] else []
  }

  /** The PDFs produced, in input order. */
  function Accepted(es: seq<Event>): seq<Part>
  {
    if es == [] then [] else Taken(es[0]) + Accepted(es[1..])
  }

  /** The failure notices, in input order. */
  function Failures(es: seq<Event>): seq<string>
  {
    if es == [] then [] else Reported(es[0]) + Failures(es[1..])
  }

  lemma {:induction false} AcceptedAppend(es: seq<Event>, e: Event)
    ensures Accepted(es + [e]) == Accepted(es) + Taken(e)
    ensures Failures(es + [e]) == Failures(es) + Reported(e)
  {
    if es != [] {
      assert (es + [e])[1..] == es[1..] + [e];
      AcceptedAppend(es[1..], e);
    }
  }

  /** Without an escaping exception, the merger receives exactly the PDFs produced and the
      notices are exactly those of the refused inputs, both in input order. */
  lemma {:induction false} RunWithoutAbort(es: seq<Event>, start: map<string, Pdf>)
    requires NoAbort(es)
    ensures !RunEvents(es, start).aborted
    ensures RunEvents(es, start).parts == Accepted(es)
    ensures RunEvents(es, start).notices == Failures(es)
  {
    if es != [] {
      var init := es[..|es| - 1];
      var last := es[|es| - 1];
      RunWithoutAbort(init, start);
      AcceptedAppend(init, last);
      assert init + [last] == es;
    }
  }

  /** Once an exception escapes, later inputs change nothing. */
  lemma {:induction false} AbortStays(es: seq<Event>, k: nat, start: map<string, Pdf>)
    requires k <= |es|
    requires RunEvents(es[..k], start).aborted
    ensures RunEvents(es, start) == RunEvents(es[..k], start)
    decreases |es| - k
  {
    if k < |es| {
      assert es[..|es| - 1][..k] == es[..k];
      AbortStays(es[..|es| - 1], k, start);
    } else {
      assert es[..k] == es;
    }
  }

  /** The first input whose conversion raises something other than a `ValueError` ends the
      run: the merger and the notices hold what came before it. */
  lemma FirstAbortStops(es: seq<Event>, k: nat, start: map<string, Pdf>)
    requires k < |es| && es[k].conversion.Aborted?
    requires NoAbort(es[..k])
    ensures RunEvents(es, start).aborted
    ensures RunEvents(es, start).parts == Accepted(es[..k])
    ensures RunEvents(es, start).notices == Failures(es[..k])
  {
    RunWithoutAbort(es[..k], start);
    assert es[..k + 1][..k] == es[..k];
    AbortStays(es, k + 1, start);
  }

  /** Every input yields one PDF or one notice, never both. */
  lemma {:induction false} OneOutcomeEach(es: seq<Event>)
    requires NoAbort(es)
    ensures |Accepted(es)| + |Failures(es)| == |es|
  {
    if es != [] {
      assert NoAbort(es[1..]) by {
        forall i | 0 <= i < |es[1..]|
          ensures !es[1..][i].conversion.Aborted?
        {
          assert es[1..][i] == es[i + 1];
        }
      }
      assert !es[0].conversion.Aborted?;
      OneOutcomeEach(es[1..]);
    }
  }

  // ---------------------------------------------------------------------------
  // In terms of the input files
  // ---------------------------------------------------------------------------

  function PartPaths(parts: seq<Part>): (ps: seq<string>)
    ensures |ps| == |parts|
    ensures forall i :: 0 <= i < |parts| ==> ps[i] == parts[i].path
  {
    seq(|parts|, i requires 0 <= i < |parts| => parts[i].path)
  }

  /** The output paths of the inputs with a supported extension, in input order. */
  function SupportedOutputs(files: seq<InputFile>): seq<string>
  {
    if files == [] then []
    else
      var f := files[0];
      (if Classify(f.path) != Unsupported then [OutputPath(f.path, TempFolder, Classify(f.path))] else [])
      + SupportedOutputs(files[1..])
  }

  /** One notice for each input with an unsupported extension, in input order. */
  function UnsupportedNotices(files: seq<InputFile>): seq<string>
  {
    if files == [] then []
    else
      var f := files[0];
      (if Classify(f.path) == Unsupported then [FailureNotice(f.path, UnsupportedMessage(LowerExt(f.path)))] else [])
      + UnsupportedNotices(files[1..])
  }

  /** Every supported input holds what its library can read. */
  predicate AllReadable(files: seq<InputFile>)
  {
    forall i :: 0 <= i < |files| ==> Readable(files[i])
  }

  lemma EventsTail(files: seq<InputFile>)
    requires files != []
    ensures Events(files[1..]) == Events(files)[1..]
  {
  }

  lemma AllReadableTail(files: seq<InputFile>)
    requires files != [] && AllReadable(files)
    ensures Readable(files[0]) && AllReadable(files[1..])
  {
    forall i | 0 <= i < |files[1..]|
      ensures Readable(files[1..][i])
    {
      assert files[1..][i] == files[i + 1];
    }
  }

  /** What one readable input contributes to the merger and to the notices. */
  lemma ReadableEvent(f: InputFile)
    requires Readable(f)
    ensures var e := Event(f.path, Convert(f, TempFolder));
      && !e.conversion.Aborted?
      && PartPaths(Taken(e)) ==
        (if Classify(f.path) != Unsupported then [OutputPath(f.path, TempFolder, Classify(f.path))] else [])
      && Reported(e) ==
        (if Classify(f.path) == Unsupported then [FailureNotice(f.path, UnsupportedMessage(LowerExt(f.path)))] else [])
  {
    ReadableOutcome(f, TempFolder);
  }

  lemma PartPathsAppend(a: seq<Part>, b: seq<Part>)
    ensures PartPaths(a + b) == PartPaths(a) + PartPaths(b)
  {
  }

  /** A run has no escaping exception when neither its first pass nor the later ones has. */
  lemma NoAbortCons(es: seq<Event>)
    requires es != [] && !es[0].conversion.Aborted? && NoAbort(es[1..])
    ensures NoAbort(es)
  {
    forall i | 0 < i < |es|
      ensures !es[i].conversion.Aborted?
    {
      assert es[i] == es[1..][i - 1];
    }
  }

  lemma {:induction false} ReadableEvents(files: seq<InputFile>)
    requires AllReadable(files)
    ensures NoAbort(Events(files))
    ensures PartPaths(Accepted(Events(files))) == SupportedOutputs(files)
    ensures Failures(Events(files)) == UnsupportedNotices(files)
  {
    var es := Events(files);
    if files != [] {
      EventsTail(files);
      AllReadableTail(files);
      ReadableEvents(files[1..]);
      ReadableEvent(files[0]);
      assert es[0] == Event(files[0].path, Convert(files[0], TempFolder));
      assert Accepted(es) == Taken(es[0]) + Accepted(es[1..]);
      assert Failures(es) == Reported(es[0]) + Failures(es[1..]);
      PartPathsAppend(Taken(es[0]), Accepted(es[1..]));
      NoAbortCons(es);
    }
  }

  /** When every supported input is readable, the merger receives the PDFs of exactly the
      inputs with a supported extension, in input order and under their output names, and
      exactly one notice is printed for each unsupported input. */
  lemma UnifyAppendsSupported(files: seq<InputFile>, start: map<string, Pdf>)
    requires AllReadable(files)
    ensures var r := RunEvents(Events(files), start);
      && !r.aborted
      && PartPaths(r.parts) == SupportedOutputs(files)
      && r.notices == UnsupportedNotices(files)
  {
    ReadableEvents(files);
    RunWithoutAbort(Events(files), start);
  }

  /** The body of the loop of `unify_to_pdf` for one input: convert it, append the PDF to
      the merger, or print the notice for a `ValueError`. It reports whether some other
      exception escaped. */
  method Process(f: InputFile, ws: Workspace, merger: Merger, notices: seq<string>)
    returns (printed: seq<string>, aborted: bool)
    requires ws.present
    modifies ws, merger
    ensures ws.present
    ensures Run(merger.parts, printed, aborted, ws.files) ==
      Step(Run(old(merger.parts), notices, false, old(ws.files)), Event(f.path, Convert(f, TempFolder)))
  {
    var c := ConvertToPdf(f, TempFolder, ws);
    printed, aborted := notices, false;
    match c
    case Converted(out, _) =>
      merger.Append(out, ws);
    case Refused(m) =>
      printed := notices + [FailureNotice(f.path, m)];
    case Aborted =>
      aborted := true;
  }

  /** The loop of `unify_to_pdf` over the inputs, stopping at an exception that is not a
      `ValueError`. */
  method ConvertAll(files: seq<InputFile>, ws: Workspace, merger: Merger)
    returns (notices: seq<string>, aborted: bool)
    requires ws.present && merger.parts == []
    modifies ws, merger
    ensures ws.present
    ensures Run(merger.parts, notices, aborted, ws.files) == RunEvents(Events(files), old(ws.files))
  {
    ghost var start := ws.files;
    ghost var es := Events(files);
    notices, aborted := [], false;
    for i := 0 to |files|
      invariant ws.present
      invariant Run(merger.parts, notices, false, ws.files) == RunEvents(es[..i], start)
    {
      notices, aborted := Process(files[i], ws, merger, notices);
      assert es[..i + 1][..i] == es[..i];
      if aborted {
        AbortStays(es, i + 1, start);
        return;
      }
    }
    assert es[..|files|] == es;
  }

  /** Removes every file listed in the temporary folder, then the folder. */
  method RemoveTemp(ws: Workspace)
    requires ws.present
    modifies ws
    ensures !ws.present && ws.files == map[]
  {
    var names := ws.files.Keys;
    while names != {}
      invariant ws.present && ws.files.Keys == names
      decreases |names|
    {
      var n :| n in names;
      ws.Remove(n);
      names := names - {n};
    }
    assert ws.files == map[];
    ws.RemoveDir();
  }

  /** The whole of `unify_to_pdf(files, output_pdf)` run against the temporary folder `ws`.
      It returns the merged PDF's parts (none when an exception escaped and the merged file
      was never written) and the lines printed. */
  method Unify(files: seq<InputFile>, outputPdf: string, ws: Workspace)
    returns (merged: Option<seq<Part>>, printed: seq<string>)
    modifies ws
    ensures var r := RunEvents(Events(files), Start(old(ws.present), old(ws.files)));
      if r.aborted then
        merged == None && printed == r.notices && ws.present && ws.files == r.written
      else
        merged == Some(r.parts) && printed == r.notices + [DoneNotice(outputPdf)]
        && !ws.present && ws.files == map[]
  {
    ws.MakeDirs();
    var merger := new Merger();
    var notices, aborted := ConvertAll(files, ws, merger);
    if aborted {
      return None, notices;
    }
    merged := Some(merger.parts);
    RemoveTemp(ws);
    printed := notices + [DoneNotice(outputPdf)];
  }
}
