/**
 * The résumé reader's dispatch on the file name (app.py, `parse_resume`):
 * the extension is the last `.`-separated piece of the name, lower-cased;
 * "pdf" and "docx" files have their text extracted and joined line by line,
 * any other file yields no text. The extraction itself happens in foreign
 * libraries, so its result, the texts of the pages or of the paragraphs,
 * is a parameter here.
 */
module Resume {
  import opened Text

  /** The formats the reader dispatches on. */
  datatype Format = Pdf | Docx | Unsupported

  /** `filename.split('.')[-1].lower()`. */
  function Extension(filename: string): string {
    var pieces := Split(filename, '.');
    Lower(pieces[|pieces| - 1])
  }

  /** The format the extension selects. */
  function FormatOf(filename: string): Format {
    var ext := Extension(filename);
    if ext == "pdf" then Pdf
    else if ext == "docx" then Docx
    else Unsupported
  }

  /** The text the reader returns, given the texts `parts` that the
      extraction library yields for the file: the parts joined with line
      breaks for a PDF or a Word file, nothing for any other file. */
  function ResumeText(filename: string, parts: seq<string>): (r: string)
    ensures FormatOf(filename) == Unsupported ==> r == ""
    ensures FormatOf(filename) != Unsupported ==> Split(r, '\n') == SplitAll(parts)
  {
    JoinedLines(parts);
    if FormatOf(filename) == Unsupported then "" else Join(parts, "\n")
  }

  /** The lines of each part, the last line of one part running straight
      into the first line of the next. */
  function SplitAll(parts: seq<string>): seq<string> {
    if |parts| == 0 then [""]
    else if |parts| == 1 then Split(parts[0], '\n')
    else Split(parts[0], '\n') + SplitAll(parts[1..])
  }

  /** Splitting the joined parts at line breaks gives the lines of each
      part in turn. */
  lemma {:induction false} JoinedLines(parts: seq<string>)
    ensures Split(Join(parts, "\n"), '\n') == SplitAll(parts)
  {
    if |parts| > 1 {
      JoinedLines(parts[1..]);
      SplitConcat(parts[0], Join(parts[1..], "\n"));
    }
  }

  /** Text, a line break, more text: the lines of the first, then those of
      the second. */
  lemma {:induction false} SplitConcat(a: string, b: string)
    ensures Split(a + "\n" + b, '\n') == Split(a, '\n') + Split(b, '\n')
  {
    var s := a + "\n" + b;
    if |a| == 0 {
      assert s[0] == '\n' && s[1..] == b;
    } else {
      assert s[0] == a[0] && s[1..] == a[1..] + "\n" + b;
      SplitConcat(a[1..], b);
      if a[0] != '\n' {
        HeadOfConcat(Split(a[1..], '\n'), Split(b, '\n'));
      }
    }
  }

  /** The head and the tail of a concatenation with a non-empty front. */
  lemma HeadOfConcat(x: seq<string>, y: seq<string>)
    requires |x| >= 1
    ensures (x + y)[0] == x[0] && (x + y)[1..] == x[1..] + y
  {
  }

  /** The extension is the lower-cased text after the last dot. */
  lemma ExtensionAfterLastDot(filename: string)
    ensures Extension(filename) == Lower(AfterLast(filename, '.'))
  {
    AfterLastIsLastPiece(filename, '.');
  }

  /** Only what follows the last dot counts: a name ending in ".pdf" is a
      PDF whatever precedes it, dots included. */
  lemma OnlyLastPieceCounts(stem: string, ext: string)
    requires '.' !in ext
    ensures Extension(stem + "." + ext) == Lower(ext)
  {
    ExtensionAfterLastDot(stem + "." + ext);
    AfterLastOfTail(stem, ext, '.');
  }

  /** A name without a dot is its own extension. */
  lemma NoDotWholeName(filename: string)
    requires '.' !in filename
    ensures Extension(filename) == Lower(filename)
  {
    ExtensionAfterLastDot(filename);
  }

  /** The test ignores letter case: "CV.PDF" and "CV.Docx" are read. */
  lemma ExtensionCaseBlind(stem: string)
    ensures FormatOf(stem + ".PDF") == Pdf
    ensures FormatOf(stem + ".Docx") == Docx
  {
    assert stem + ".PDF" == stem + "." + "PDF";
    assert stem + ".Docx" == stem + "." + "Docx";
    OnlyLastPieceCounts(stem, "PDF");
    OnlyLastPieceCounts(stem, "Docx");
    var pdf := Lower("PDF");
    assert pdf[0] == 'p' && pdf[1] == 'd' && pdf[2] == 'f';
    assert pdf == "pdf";
    var docx := Lower("Docx");
    assert docx[0] == 'd' && docx[1] == 'o' && docx[2] == 'c' && docx[3] == 'x';
    assert docx == "docx";
  }

  /** A file called just "pdf" is read as a PDF, and a ".pdf.txt" file is
      not. */
  lemma DispatchEdges(stem: string)
    ensures FormatOf("pdf") == Pdf
    ensures FormatOf(stem + ".pdf.txt") == Unsupported
  {
    NoDotWholeName("pdf");
    assert stem + ".pdf.txt" == (stem + ".pdf") + "." + "txt";
    OnlyLastPieceCounts(stem + ".pdf", "txt");
  }
}
