/**
 * Text extraction from an uploaded document: the choice of extractor by the
 * path's suffix (case-insensitive), the unsupported-format error, and the
 * name of the temporary file an upload is saved under, which keeps only the
 * last '.'-separated segment of the upload's name as its extension.
 *
 * The three extractors are not modelled: they are the parameters `Readers`.
 * The PDF and DOCX extractors catch every error and return what they have,
 * so they always yield a string; the plain-text read does not catch, so its
 * reader may fail.
 */
module Extraction {
  import opened Wrappers
  import opened PyStr

  datatype Format = Pdf | Docx | Txt | Unsupported

  datatype ExtractError =
    | UnsupportedFormat           // the ValueError raised for any other suffix
    | ReadFailed(reason: string)  // an exception from opening or decoding a text file

  /** The three extractors, each applied to the path of the saved file. */
  datatype Readers = Readers(
    pdf: string -> string,
    docx: string -> string,
    txt: string -> Result<string, string>)

  /** Which extractor a path is routed to, testing ".pdf", ".docx" and ".txt" in that order. */
  function Classify(path: string): (f: Format)
    ensures f == Pdf <==> EndsWith(Lower(path), ".pdf")
    ensures f == Docx <==> EndsWith(Lower(path), ".docx")
    ensures f == Txt <==> EndsWith(Lower(path), ".txt")
    ensures f == Unsupported <==>
      !EndsWith(Lower(path), ".pdf") && !EndsWith(Lower(path), ".docx") && !EndsWith(Lower(path), ".txt")
  {
    var p := Lower(path);
    SuffixesExclusive(p);
    if EndsWith(p, ".pdf") then Pdf
    else if EndsWith(p, ".docx") then Docx
    else if EndsWith(p, ".txt") then Txt
    else Unsupported
  }

  /** No string ends in two of the three suffixes, so the order of the tests cannot matter. */
  lemma SuffixesExclusive(p: string)
    ensures !(EndsWith(p, ".pdf") && EndsWith(p, ".docx"))
    ensures !(EndsWith(p, ".pdf") && EndsWith(p, ".txt"))
    ensures !(EndsWith(p, ".docx") && EndsWith(p, ".txt"))
  {
    if |p| > 0 {
      var last := p[|p| - 1];
      assert EndsWith(p, ".pdf") ==> last == ".pdf"[3];
      assert EndsWith(p, ".docx") ==> last == ".docx"[4];
      assert EndsWith(p, ".txt") ==> last == ".txt"[3];
    }
  }

  /** The format an extension stands for, ignoring case. */
  function ExtensionFormat(ext: string): Format {
    var e := Lower(ext);
    if e == "pdf" then Pdf
    else if e == "docx" then Docx
    else if e == "txt" then Txt
    else Unsupported
  }

  /** The lower-cased path ends in "." + ext exactly when the lower-cased last segment is ext. */
  lemma LowerDottedSuffix(p: string, seg: string, ext: string)
    requires '.' !in seg && '.' !in ext
    ensures EndsWith(Lower(p + "." + seg), "." + ext) <==> Lower(seg) == ext
  {
    LowerAppend(p + ".", seg);
    LowerAppend(p, ".");
    assert Lower(".") == ".";
    LowerKeepsDots(seg);
    DottedSuffix(Lower(p), Lower(seg), ext);
  }

  /** A path's format is decided by the dot-free segment after its last '.'. */
  lemma ClassifyByExtension(p: string, seg: string)
    requires '.' !in seg
    ensures Classify(p + "." + seg) == ExtensionFormat(seg)
  {
    LowerDottedSuffix(p, seg, "pdf");
    LowerDottedSuffix(p, seg, "docx");
    LowerDottedSuffix(p, seg, "txt");
    assert "." + "pdf" == ".pdf" && "." + "docx" == ".docx" && "." + "txt" == ".txt";
  }

  /** The path an upload is saved under: the prefix, a '.', and the last '.'-segment of its name. */
  function TempFileName(prefix: string, uploadName: string): string {
    prefix + "." + SplitLast(uploadName, '.')
  }

  /**
   * Saving an upload keeps its format: the saved path is routed by the
   * upload's last extension, and when the upload's name has a '.' at all,
   * exactly as the upload's own name would be.
   */
  lemma TempFileKeepsFormat(prefix: string, uploadName: string)
    ensures Classify(TempFileName(prefix, uploadName)) == ExtensionFormat(SplitLast(uploadName, '.'))
    ensures '.' in uploadName ==> Classify(TempFileName(prefix, uploadName)) == Classify(uploadName)
  {
    var seg := SplitLast(uploadName, '.');
    ClassifyByExtension(prefix, seg);
    if '.' in uploadName {
      SameExtension(uploadName);
    }
  }

  lemma SameExtension(name: string)
    requires '.' in name
    ensures Classify(name) == ExtensionFormat(SplitLast(name, '.'))
  {
    var seg := SplitLast(name, '.');
    SplitLastDecompose(name, '.');
    var head := name[..|name| - |seg| - 1];
    assert name == head + "." + seg;
    ClassifyByExtension(head, seg);
  }

  /**
   * `extract_text_from_file`: the text of the file at path, from the extractor
   * its suffix selects, or the unsupported-format error.
   */
  function ExtractText(path: string, rd: Readers): (r: Result<string, ExtractError>)
    ensures r == Failure(UnsupportedFormat) <==> Classify(path) == Unsupported
    ensures Classify(path) == Pdf ==> r == Success(rd.pdf(path))
    ensures Classify(path) == Docx ==> r == Success(rd.docx(path))
    ensures Classify(path) == Txt ==>
      (rd.txt(path).Success? && r == Success(rd.txt(path).value)) ||
      (rd.txt(path).Failure? && r == Failure(ReadFailed(rd.txt(path).error)))
  {
    match Classify(path)
    case Pdf => Success(rd.pdf(path))
    case Docx => Success(rd.docx(path))
    case Txt =>
      (match rd.txt(path)
       case Success(text) => Success(text)
       case Failure(e) => Failure(ReadFailed(e)))
    case Unsupported => Failure(UnsupportedFormat)
  }

  /** An unsupported path is refused before any extractor runs: the readers cannot change the outcome. */
  lemma UnsupportedReadsNothing(path: string, rd1: Readers, rd2: Readers)
    requires Classify(path) == Unsupported
    ensures ExtractText(path, rd1) == ExtractText(path, rd2) == Failure(UnsupportedFormat)
  {
  }

  /** Saving an upload under prefix and extracting the saved file. */
  function ExtractUpload(prefix: string, uploadName: string, rd: Readers): (r: Result<string, ExtractError>)
    ensures r == Failure(UnsupportedFormat) <==> ExtensionFormat(SplitLast(uploadName, '.')) == Unsupported
  {
    TempFileKeepsFormat(prefix, uploadName);
    ExtractText(TempFileName(prefix, uploadName), rd)
  }

  /** An upload named "resume.rtf" fails with the unsupported-format error, whatever the readers. */
  lemma RtfUploadRefused(rd: Readers)
    ensures ExtractUpload("temp_resume", "resume.rtf", rd) == Failure(UnsupportedFormat)
  {
    SplitLastAfterDot("resume", "rtf");
    assert "resume.rtf" == "resume" + "." + "rtf";
    assert Lower("rtf") == "rtf";
  }
}
